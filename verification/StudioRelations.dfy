/** Relations shown as tags attached to groups (packages/studio-ui/src/relations.lib.ts). */
module StudioRelations {
  import opened Wrappers
  import opened Sequences
  import opened StudioGraph
  import opened StudioScope

  datatype Part = Wires | Middleware | Warp | Hidden

  /** Which part of the map draws the relation; None is the unknown identity error. */
  function RelationPart(g: Graph, e: Relation, hidden: seq<string>): Option<Part> {
    if e.from !in g.owners || e.to !in g.owners then None
    else if g.owners[e.from].columnId in hidden || g.owners[e.to].columnId in hidden then Some(Hidden)
    else if GrantedKind(e) == Some("middleware") then Some(Middleware)
    else if GrantedKind(e) == Some("event") then Some(Warp)
    else Some(Wires)
  }

  datatype NoteKind = MiddlewareNote | EventNote

  /** What a tag stands for; its key is these four serialised. */
  datatype Key = Key(groupId: string, kind: NoteKind, target: string, incoming: bool)

  datatype Attachment = Attachment(key: Key, order: Option<real>, relations: seq<Relation>)

  function Earliest(left: Option<real>, right: Option<real>): Option<real> {
    if left.None? then right
    else if right.None? then left
    else if left.value <= right.value then left
    else right
  }

  function OrderOf(e: Relation): Option<real> {
    if e.origin.FromPlugin? then e.origin.order else None
  }

  /** Adds a relation to the tag with the key, which keeps its place, or makes a new last tag. */
  function Put(notes: seq<Attachment>, key: Key, e: Relation): seq<Attachment> {
    if notes == [] then [Attachment(key, OrderOf(e), [e])]
    else if notes[0].key == key then
      [Attachment(key, Earliest(notes[0].order, OrderOf(e)), notes[0].relations + [e])] + notes[1..]
    else [notes[0]] + Put(notes[1..], key, e)
  }

  function Find(notes: seq<Attachment>, key: Key): Option<Attachment> {
    if notes == [] then None else if notes[0].key == key then Some(notes[0]) else Find(notes[1..], key)
  }

  /** The tags one relation belongs to, in the order they are added. */
  function KeysOf(g: Graph, e: Relation, hidden: seq<string>, showTypes: bool): Option<seq<Key>> {
    if !showTypes && RelationKind(e) == "type" then Some([])
    else
      match RelationPart(g, e, hidden)
      case None => None
      case Some(Middleware) => Some([Key(g.owners[e.from].id, MiddlewareNote, e.to, false)])
      case Some(Warp) => Some([Key(g.owners[e.from].id, EventNote, e.to, false), Key(g.owners[e.to].id, EventNote, e.from, true)])
      case Some(_) => Some([])
  }

  function PutAll(notes: seq<Attachment>, keys: seq<Key>, e: Relation): seq<Attachment> {
    if keys == [] then notes else Put(PutAll(notes, keys[..|keys| - 1], e), keys[|keys| - 1], e)
  }

  function AttachmentsOf(g: Graph, relations: seq<Relation>, hidden: seq<string>, showTypes: bool): Option<seq<Attachment>> {
    if relations == [] then Some([])
    else
      match AttachmentsOf(g, relations[..|relations| - 1], hidden, showTypes)
      case None => None
      case Some(notes) =>
        var e := relations[|relations| - 1];
        match KeysOf(g, e, hidden, showTypes)
        case None => None
        case Some(keys) => Some(PutAll(notes, keys, e))
  }

  function Attachments(g: Graph, hidden: seq<string>, showTypes: bool): Option<seq<Attachment>> {
    AttachmentsOf(g, g.relations, hidden, showTypes)
  }

  /** The loop over the relations, filling the tags as it goes. */
  method CollectAttachments(g: Graph, hidden: seq<string>, showTypes: bool) returns (r: Option<seq<Attachment>>)
    ensures r == Attachments(g, hidden, showTypes)
  {
    var notes: seq<Attachment> := [];
    for i := 0 to |g.relations|
      invariant AttachmentsOf(g, g.relations[..i], hidden, showTypes) == Some(notes)
    {
      assert g.relations[..i + 1][..i] == g.relations[..i];
      if showTypes || RelationKind(g.relations[i]) != "type" {
        var next := AttachRelation(g, g.relations[i], hidden, notes);
        if next.None? {
          FailureStays(g, g.relations, i + 1, hidden, showTypes);
          return None;
        }
        notes := next.value;
      }
    }
    assert g.relations[..|g.relations|] == g.relations;
    return Some(notes);
  }

  /** Adds one relation to the tags of the part that draws it. */
  method AttachRelation(g: Graph, e: Relation, hidden: seq<string>, notes: seq<Attachment>) returns (r: Option<seq<Attachment>>)
    ensures r == match KeysOf(g, e, hidden, true) case None => None case Some(keys) => Some(PutAll(notes, keys, e))
  {
    var part := RelationPart(g, e, hidden);
    if part.None? { return None; }
    PutAllUnrolled(notes, KeysOf(g, e, hidden, true).value, e);
    if part.value == Middleware {
      r := Some(Put(notes, Key(g.owners[e.from].id, MiddlewareNote, e.to, false), e));
    } else if part.value == Warp {
      var once := Put(notes, Key(g.owners[e.from].id, EventNote, e.to, false), e);
      r := Some(Put(once, Key(g.owners[e.to].id, EventNote, e.from, true), e));
    } else {
      r := Some(notes);
    }
  }

  lemma PutAllUnrolled(notes: seq<Attachment>, keys: seq<Key>, e: Relation)
    ensures |keys| == 1 ==> PutAll(notes, keys, e) == Put(notes, keys[0], e)
    ensures |keys| == 2 ==> PutAll(notes, keys, e) == Put(Put(notes, keys[0], e), keys[1], e)
  {
    if |keys| == 2 {
      assert keys[..1] == [keys[0]];
      assert PutAll(notes, [keys[0]], e) == Put(notes, keys[0], e);
    }
  }

  lemma {:induction false} FailureStays(g: Graph, relations: seq<Relation>, k: nat, hidden: seq<string>, showTypes: bool)
    requires k <= |relations| && AttachmentsOf(g, relations[..k], hidden, showTypes).None?
    ensures AttachmentsOf(g, relations, hidden, showTypes).None?
  {
    if k == |relations| {
      assert relations[..k] == relations;
    } else {
      assert relations[..|relations| - 1][..k] == relations[..k];
      FailureStays(g, relations[..|relations| - 1], k, hidden, showTypes);
    }
  }

  // ---------- what the tags hold ----------

  function BelongsTo(g: Graph, hidden: seq<string>, showTypes: bool, key: Key): Relation -> bool {
    (e: Relation) => KeysOf(g, e, hidden, showTypes).Some? && key in KeysOf(g, e, hidden, showTypes).value
  }

  /** The earliest of the orders the relations have, if any has one. */
  ghost predicate IsEarliest(order: Option<real>, relations: seq<Relation>) {
    match order
    case None => forall e :: e in relations ==> OrderOf(e).None?
    case Some(n) => (exists e :: e in relations && OrderOf(e) == Some(n)) && (forall e :: e in relations && OrderOf(e).Some? ==> n <= OrderOf(e).value)
  }

  /** A tag gathers, in order, exactly these relations. */
  ghost predicate Gathers(note: Option<Attachment>, key: Key, relations: seq<Relation>) {
    match note
    case None => relations == []
    case Some(n) => n.key == key && relations != [] && n.relations == relations && IsEarliest(n.order, relations)
  }

  lemma {:induction false} FindPut(notes: seq<Attachment>, key: Key, e: Relation, k: Key, relations: seq<Relation>)
    requires Gathers(Find(notes, k), k, relations)
    ensures Gathers(Find(Put(notes, key, e), k), k, if k == key then relations + [e] else relations)
  {
    if notes == [] {
      Single(e);
    } else if notes[0].key == key {
      if k == key {
        EarliestGrows(notes[0].order, notes[0].relations, e);
      }
    } else {
      if notes[0].key != k { FindPut(notes[1..], key, e, k, relations); }
    }
  }

  lemma Single(e: Relation)
    ensures IsEarliest(OrderOf(e), [e])
  {
    assert e in [e];
  }

  lemma EarliestGrows(order: Option<real>, relations: seq<Relation>, e: Relation)
    requires IsEarliest(order, relations)
    ensures IsEarliest(Earliest(order, OrderOf(e)), relations + [e])
  {
    var more := relations + [e];
    assert e in more && forall x :: x in relations ==> x in more;
  }

  lemma {:induction false} FindPutAll(notes: seq<Attachment>, keys: seq<Key>, e: Relation, k: Key, relations: seq<Relation>)
    requires Gathers(Find(notes, k), k, relations) && Distinct(keys)
    ensures Gathers(Find(PutAll(notes, keys, e), k), k, if k in keys then relations + [e] else relations)
  {
    if keys != [] {
      var init, last := keys[..|keys| - 1], keys[|keys| - 1];
      SplitLast(keys);
      assert last !in init;
      FindPutAll(notes, init, e, k, relations);
      FindPut(PutAll(notes, init, e), last, e, k, if k in init then relations + [e] else relations);
    }
  }

  /** Each tag shows exactly the relations that belong to it, in graph order, at the earliest of their positions. */
  lemma {:induction false} TagsGather(g: Graph, relations: seq<Relation>, hidden: seq<string>, showTypes: bool, k: Key)
    requires AttachmentsOf(g, relations, hidden, showTypes).Some?
    ensures Gathers(Find(AttachmentsOf(g, relations, hidden, showTypes).value, k), k, Filter(relations, BelongsTo(g, hidden, showTypes, k)))
  {
    if relations != [] {
      var init, e := relations[..|relations| - 1], relations[|relations| - 1];
      TagsGather(g, init, hidden, showTypes, k);
      var keys := KeysOf(g, e, hidden, showTypes).value;
      FindPutAll(AttachmentsOf(g, init, hidden, showTypes).value, keys, e, k, Filter(init, BelongsTo(g, hidden, showTypes, k)));
    }
  }

  // ---------- tags are distinct and lead somewhere ----------

  predicate DistinctKeys(notes: seq<Attachment>) {
    notes == [] || (DistinctKeys(notes[1..]) && forall n :: n in notes[1..] ==> n.key != notes[0].key)
  }

  lemma {:induction false} PutDistinct(notes: seq<Attachment>, key: Key, e: Relation)
    requires DistinctKeys(notes)
    ensures DistinctKeys(Put(notes, key, e))
  {
    if notes != [] && notes[0].key != key {
      var rest := Put(notes[1..], key, e);
      PutDistinct(notes[1..], key, e);
      forall n | n in rest ensures n.key != notes[0].key {
        PutMembers(notes[1..], key, e, n);
      }
      assert Put(notes, key, e)[1..] == rest;
    }
  }

  /** No two tags have the same key. */
  lemma {:induction false} TagsDistinct(g: Graph, relations: seq<Relation>, hidden: seq<string>, showTypes: bool)
    requires AttachmentsOf(g, relations, hidden, showTypes).Some?
    ensures DistinctKeys(AttachmentsOf(g, relations, hidden, showTypes).value)
  {
    if relations != [] {
      var init, e := relations[..|relations| - 1], relations[|relations| - 1];
      TagsDistinct(g, init, hidden, showTypes);
      PutAllDistinct(AttachmentsOf(g, init, hidden, showTypes).value, KeysOf(g, e, hidden, showTypes).value, e);
    }
  }

  lemma {:induction false} PutAllDistinct(notes: seq<Attachment>, keys: seq<Key>, e: Relation)
    requires DistinctKeys(notes)
    ensures DistinctKeys(PutAll(notes, keys, e))
  {
    if keys != [] {
      PutAllDistinct(notes, keys[..|keys| - 1], e);
      PutDistinct(PutAll(notes, keys[..|keys| - 1], e), keys[|keys| - 1], e);
    }
  }

  lemma {:induction false} PutMembers(notes: seq<Attachment>, key: Key, e: Relation, n: Attachment)
    requires n in Put(notes, key, e)
    ensures n in notes || (n.key == key && e in n.relations && forall r :: r in n.relations ==> r == e || exists m :: m in notes && m.key == key && r in m.relations)
  {
    if notes != [] {
      if notes[0].key == key {
        assert n in notes[1..] ==> n in notes;
      } else if n != notes[0] {
        PutMembers(notes[1..], key, e, n);
        assert forall m :: m in notes[1..] ==> m in notes;
      }
    }
  }

  /** Where a tag sits and where it leads are things the graph has, and so are the ends of its relations. */
  ghost predicate TagKnown(g: Graph, n: Attachment) {
    && n.key.groupId in g.groups && n.key.target in g.owners && n.relations != []
    && forall r :: r in n.relations ==> r in g.relations
  }

  lemma {:induction false} PutAllKnown(g: Graph, notes: seq<Attachment>, keys: seq<Key>, e: Relation)
    requires e in g.relations && forall n :: n in notes ==> TagKnown(g, n)
    requires forall k :: k in keys ==> k.groupId in g.groups && k.target in g.owners
    ensures forall n :: n in PutAll(notes, keys, e) ==> TagKnown(g, n)
  {
    if keys != [] {
      var init, last := keys[..|keys| - 1], keys[|keys| - 1];
      SplitLast(keys);
      PutAllKnown(g, notes, init, e);
      forall n | n in PutAll(notes, keys, e) ensures TagKnown(g, n) {
        PutMembers(PutAll(notes, init, e), last, e, n);
      }
    }
  }

  lemma KeysWithin(g: Graph, e: Relation, hidden: seq<string>, showTypes: bool)
    requires e.from in g.owners && e.to in g.owners && g.owners[e.from].id in g.groups && g.owners[e.to].id in g.groups
    ensures KeysOf(g, e, hidden, showTypes).Some?
    ensures forall k :: k in KeysOf(g, e, hidden, showTypes).value ==> k.groupId in g.groups && k.target in g.owners
  {
  }

  lemma KeysKnown(g: Graph, e: Relation, hidden: seq<string>, showTypes: bool)
    requires Linked(g) && e in g.relations
    ensures KeysOf(g, e, hidden, showTypes).Some?
    ensures forall k :: k in KeysOf(g, e, hidden, showTypes).value ==> k.groupId in g.groups && k.target in g.owners
  {
    EndsAreOwned(g, e);
    OwnerIsGroup(g, e.from);
    OwnerIsGroup(g, e.to);
    KeysWithin(g, e, hidden, showTypes);
  }

  /** In a graph that was read every relation can be placed, and every tag leads to something the graph has. */
  lemma {:induction false} TagsKnown(g: Graph, relations: seq<Relation>, hidden: seq<string>, showTypes: bool)
    requires Linked(g) && forall r :: r in relations ==> r in g.relations
    ensures AttachmentsOf(g, relations, hidden, showTypes).Some?
    ensures forall n :: n in AttachmentsOf(g, relations, hidden, showTypes).value ==> TagKnown(g, n)
  {
    if relations != [] {
      var init, e := relations[..|relations| - 1], relations[|relations| - 1];
      TagsKnown(g, init, hidden, showTypes);
      KeysKnown(g, e, hidden, showTypes);
      PutAllKnown(g, AttachmentsOf(g, init, hidden, showTypes).value, KeysOf(g, e, hidden, showTypes).value, e);
    }
  }

  lemma {:induction false} FindMember(notes: seq<Attachment>, key: Key)
    ensures Find(notes, key).Some? ==> Find(notes, key).value in notes && Find(notes, key).value.key == key
    ensures Find(notes, key).None? ==> forall n :: n in notes ==> n.key != key
  {
    if notes != [] { FindMember(notes[1..], key); }
  }
}
