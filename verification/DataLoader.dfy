/**
 The contract of the batching, memoising loader the model runtime is built on: a key is remembered from
 its first load, a dispatch hands the batch function the queued keys, and results are aligned by index.
 A batch that fails forgets its keys.
 */
module DataLoaders {
  import opened Wrappers

  /** `Loaded` remembers, for an observer, which batch answered. */
  datatype Cell<V> = Queued | InFlight(flight: nat) | Loaded(flight: nat, value: V)

  datatype Flight = Flight(ids: seq<string>, open: bool)

  datatype Loader<V> = Loader(cache: map<string, Cell<V>>, queue: seq<string>, flights: seq<Flight>)

  function NewLoader<V>(): Loader<V> {
    Loader(map[], [], [])
  }

  function Load<V>(l: Loader<V>, id: string): Loader<V> {
    if id in l.cache then l else l.(cache := l.cache[id := Queued], queue := l.queue + [id])
  }

  /** Sends the first `count` queued keys off as one batch. */
  function Dispatch<V>(l: Loader<V>, count: nat): Loader<V>
    requires count <= |l.queue|
  {
    var ids := l.queue[..count];
    Loader(map id | id in l.cache :: if id in ids then InFlight(|l.flights|) else l.cache[id],
           l.queue[count..], l.flights + [Flight(ids, true)])
  }

  function IndexOf(ids: seq<string>, id: string): nat
    requires id in ids
    ensures IndexOf(ids, id) < |ids| && ids[IndexOf(ids, id)] == id
  {
    if ids[0] == id then 0 else 1 + IndexOf(ids[1..], id)
  }

  function Close(flights: seq<Flight>, f: nat): seq<Flight>
    requires f < |flights|
  {
    flights[f := Flight(flights[f].ids, false)]
  }

  function Succeed<V>(l: Loader<V>, f: nat, values: seq<V>): Loader<V>
    requires f < |l.flights| && |values| == |l.flights[f].ids|
  {
    var ids := l.flights[f].ids;
    l.(cache := map id | id in l.cache :: if id in ids then Loaded(f, values[IndexOf(ids, id)]) else l.cache[id],
       flights := Close(l.flights, f))
  }

  function Reject<V>(l: Loader<V>, f: nat): Loader<V>
    requires f < |l.flights|
  {
    l.(cache := map id | id in l.cache && id !in l.flights[f].ids :: l.cache[id], flights := Close(l.flights, f))
  }

  ghost predicate NoRepeats(ids: seq<string>) {
    forall i, j :: 0 <= i < j < |ids| ==> ids[i] != ids[j]
  }

  ghost predicate Inv<V>(l: Loader<V>) {
    && NoRepeats(l.queue)
    && (forall id :: id in l.queue <==> id in l.cache && l.cache[id].Queued?)
    && (forall f :: 0 <= f < |l.flights| ==> NoRepeats(l.flights[f].ids) && l.flights[f].ids != [])
    && (forall f, id :: 0 <= f < |l.flights| && l.flights[f].open && id in l.flights[f].ids ==>
          id in l.cache && l.cache[id] == InFlight(f))
  }

  /** No batch has failed: every key a batch asked for is in flight in it or loaded from it. */
  ghost predicate Clean<V>(l: Loader<V>) {
    forall f, id :: 0 <= f < |l.flights| && id in l.flights[f].ids ==>
      id in l.cache && !l.cache[id].Queued? && l.cache[id].flight == f
  }

  lemma LoadKeepsInv<V>(l: Loader<V>, id: string)
    requires Inv(l)
    ensures Inv(Load(l, id)) && id in Load(l, id).cache
    ensures Clean(l) ==> Clean(Load(l, id))
  {
  }

  lemma DispatchKeepsInv<V>(l: Loader<V>, count: nat)
    requires Inv(l) && 0 < count <= |l.queue|
    ensures Inv(Dispatch(l, count))
    ensures Clean(l) ==> Clean(Dispatch(l, count))
  {
    var l' := Dispatch(l, count);
    var ids := l.queue[..count];
    assert l.queue == ids + l'.queue;
    forall id
      ensures id in l'.queue <==> id in l'.cache && l'.cache[id].Queued?
    {
      if id in l'.queue { assert id in l.queue && id !in ids; }
    }
    forall f, id | 0 <= f < |l'.flights| && l'.flights[f].open && id in l'.flights[f].ids
      ensures id in l'.cache && l'.cache[id] == InFlight(f)
    {
      if f < |l.flights| { assert id !in l.queue; }
    }
  }

  lemma SucceedKeepsInv<V>(l: Loader<V>, f: nat, values: seq<V>)
    requires Inv(l) && f < |l.flights| && l.flights[f].open && |values| == |l.flights[f].ids|
    ensures Inv(Succeed(l, f, values))
    ensures Clean(l) ==> Clean(Succeed(l, f, values))
    ensures forall i :: 0 <= i < |values| ==>
              l.flights[f].ids[i] in l.cache &&
              Succeed(l, f, values).cache[l.flights[f].ids[i]] == Loaded(f, values[i])
  {
    var ids := l.flights[f].ids;
    forall i | 0 <= i < |values|
      ensures IndexOf(ids, ids[i]) == i
    {
      var j := IndexOf(ids, ids[i]);
      assert ids[j] == ids[i];
    }
  }

  lemma RejectKeepsInv<V>(l: Loader<V>, f: nat)
    requires Inv(l) && f < |l.flights| && l.flights[f].open
    ensures Inv(Reject(l, f))
  {
  }

  /** Without failures no key is ever asked for twice, within a batch or across batches. */
  lemma AskedAtMostOnce<V>(l: Loader<V>, f: nat, i: nat, g: nat, j: nat)
    requires Inv(l) && Clean(l)
    requires f < |l.flights| && i < |l.flights[f].ids| && g < |l.flights| && j < |l.flights[g].ids|
    requires l.flights[f].ids[i] == l.flights[g].ids[j]
    ensures f == g && i == j
  {
    var ids := l.flights[f].ids;
    var id := ids[i];
    assert id in l.flights[f].ids && l.flights[g].ids[j] in l.flights[g].ids;
    assert l.cache[id].flight == f && l.cache[id].flight == g;
    assert NoRepeats(ids) && !(i < j) && !(j < i);
  }
}
