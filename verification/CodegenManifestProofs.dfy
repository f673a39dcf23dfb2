/** Exclusion, atomic replacement and no lost update, for every interleaving of processes and crashes. */
module CodegenManifestProofs {
  import opened Wrappers
  import Ordering
  import opened CodegenManifest

  // ---------- the invariant ----------

  ghost predicate Exclusive(s: System) {
    && (forall p, q :: 0 <= p < q < |s.processes| ==> !(Holds(s.processes[p].frame) && Holds(s.processes[q].frame)))
    && (LockHeld(s) ==> s.disk.lock)
  }

  /** What the holder has read or prepared still matches the disk. */
  ghost predicate FrameOk(d: Disk, f: Frame, e: Entry, le: Collation) {
    match f
    case HasRead(existing) => ReadManifest(d.manifest) == Some(existing)
    case Writing(tmp, next) =>
      tmp in d.temps && ReadManifest(d.manifest).Some? && next == Upsert(ReadManifest(d.manifest).value, e, le)
    case Written(tmp, next) =>
      && tmp in d.temps && d.temps[tmp] == Write(next)
      && ReadManifest(d.manifest).Some? && next == Upsert(ReadManifest(d.manifest).value, e, le)
    case _ => true
  }

  ghost predicate FramesOk(s: System, le: Collation) {
    forall p :: 0 <= p < |s.processes| ==> FrameOk(s.disk, s.processes[p].frame, s.processes[p].entry, le)
  }

  ghost predicate CommitsOk(s: System) {
    && (forall i, j :: 0 <= i < j < |s.commits| ==> s.commits[i] != s.commits[j])
    && (forall p: nat :: p in s.commits <==> p < |s.processes| && Committed(s.processes[p].frame))
  }

  /** The manifest is the first one with the committed upserts applied to it one by one. */
  ghost predicate ManifestOk(s: System, first: Option<Contents>, le: Collation)
    requires CommitsOk(s)
  {
    if s.commits == [] then s.disk.manifest == first
    else ReadManifest(first).Some? &&
         s.disk.manifest == Some(Write(Fold(ReadManifest(first).value, CommittedEntries(s), le)))
  }

  ghost predicate Inv(s: System, first: Option<Contents>, le: Collation) {
    && Exclusive(s)
    && FramesOk(s, le)
    && CommitsOk(s) && ManifestOk(s, first, le)
    && (forall t :: t in s.disk.temps ==> t < s.disk.nextTemp)
  }

  lemma {:induction false} EntriesOfWrite(entries: seq<Entry>)
    ensures Entries(Write(entries).items) == entries
  {
    if entries != [] {
      assert Write(entries).items[1..] == Write(entries[1..]).items;
      EntriesOfWrite(entries[1..]);
    }
  }

  // ---------- steps keep it ----------

  lemma CommittedFrames(s: System, s': System)
    requires CommitsOk(s) && s'.commits == s.commits && |s'.processes| >= |s.processes|
    requires forall p :: 0 <= p < |s.processes| ==> s'.processes[p].entry == s.processes[p].entry
    requires forall p :: 0 <= p < |s.processes| ==> (Committed(s'.processes[p].frame) <==> Committed(s.processes[p].frame))
    requires forall p :: |s.processes| <= p < |s'.processes| ==> !Committed(s'.processes[p].frame)
    ensures CommitsOk(s') && CommittedEntries(s') == CommittedEntries(s)
  {
  }

  lemma StartKeepsInv(s: System, e: Entry, first: Option<Contents>, le: Collation)
    requires Inv(s, first, le)
    ensures Inv(Apply(s, Start(e), le), first, le)
  {
    CommittedFrames(s, Apply(s, Start(e), le));
  }

  /** A call that changes neither the manifest nor anybody's temporary file. */
  lemma QuietKeepsInv(s: System, p: nat, a: Action, first: Option<Contents>, le: Collation)
    requires Inv(s, first, le) && Enabled(s, Take(p, a)) && Disciplined(s, Take(p, a))
    requires !a.BeginWrite? && !a.EndWrite? && !a.Rename?
    ensures Inv(Apply(s, Take(p, a), le), first, le)
  {
    var s' := Apply(s, Take(p, a), le);
    QuietAction(s.disk, s.processes[p].frame, s.processes[p].entry, a, le);
    CommittedFrames(s, s');
    QuietKeepsExclusive(s, p, a, le);
    forall q | 0 <= q < |s'.processes|
      ensures FrameOk(s'.disk, s'.processes[q].frame, s'.processes[q].entry, le)
    {
      assert FrameOk(s.disk, s.processes[q].frame, s.processes[q].entry, le);
    }
  }

  lemma QuietAction(d: Disk, f: Frame, e: Entry, a: Action, le: Collation)
    requires CanAct(d, f, a) && !a.BeginWrite? && !a.EndWrite? && !a.Rename?
    ensures var (d', f') := Act(d, f, e, a, le);
            && d' == d.(lock := d'.lock)
            && (FrameOk(d, f, e, le) ==> FrameOk(d', f', e, le))
            && (Committed(f') <==> Committed(f))
  {
  }

  lemma QuietKeepsExclusive(s: System, p: nat, a: Action, le: Collation)
    requires Exclusive(s) && Enabled(s, Take(p, a)) && Disciplined(s, Take(p, a))
    ensures Exclusive(Apply(s, Take(p, a), le))
  {
    var s' := Apply(s, Take(p, a), le);
    forall q | 0 <= q < |s'.processes| && Holds(s'.processes[q].frame)
      ensures s'.disk.lock
      ensures forall r :: 0 <= r < |s'.processes| && r != q ==> !Holds(s'.processes[r].frame)
    {
      if q != p { assert Holds(s.processes[q].frame); }
    }
  }

  lemma OnlyHolder(s: System, p: nat, q: nat)
    requires Exclusive(s) && p < |s.processes| && q < |s.processes| && p != q && Holds(s.processes[p].frame)
    ensures !Holds(s.processes[q].frame)
  {
  }

  lemma WriteKeepsInv(s: System, p: nat, a: Action, first: Option<Contents>, le: Collation)
    requires Inv(s, first, le) && Enabled(s, Take(p, a)) && (a.BeginWrite? || a.EndWrite?)
    ensures Inv(Apply(s, Take(p, a), le), first, le)
  {
    var s' := Apply(s, Take(p, a), le);
    CommittedFrames(s, s');
    QuietKeepsExclusive(s, p, a, le);
    assert FrameOk(s.disk, s.processes[p].frame, s.processes[p].entry, le);
    HolderKeepsFrames(s, p, a, le);
  }

  /** While one process holds the lock, what the others have in hand does not depend on the disk. */
  lemma HolderKeepsFrames(s: System, p: nat, a: Action, le: Collation)
    requires Exclusive(s) && FramesOk(s, le) && Enabled(s, Take(p, a)) && Holds(s.processes[p].frame)
    requires var (d, f) := Act(s.disk, s.processes[p].frame, s.processes[p].entry, a, le);
             FrameOk(d, f, s.processes[p].entry, le)
    ensures FramesOk(Apply(s, Take(p, a), le), le)
  {
    var s' := Apply(s, Take(p, a), le);
    forall q: nat | q < |s'.processes|
      ensures FrameOk(s'.disk, s'.processes[q].frame, s'.processes[q].entry, le)
    {
      if q != p { OnlyHolder(s, p, q); }
    }
  }

  lemma RenameCommits(s: System, p: nat, le: Collation)
    requires CommitsOk(s) && Enabled(s, Take(p, Rename))
    ensures var s' := Apply(s, Take(p, Rename), le);
            CommitsOk(s') && CommittedEntries(s') == CommittedEntries(s) + [s.processes[p].entry]
  {
    var s' := Apply(s, Take(p, Rename), le);
    assert p !in s.commits;
    assert CommitsOk(s');
  }

  lemma RenameKeepsManifest(s: System, p: nat, first: Option<Contents>, le: Collation)
    requires Inv(s, first, le) && Enabled(s, Take(p, Rename))
    ensures var s' := Apply(s, Take(p, Rename), le); CommitsOk(s') && ManifestOk(s', first, le)
  {
    RenameCommits(s, p, le);
    assert FrameOk(s.disk, s.processes[p].frame, s.processes[p].entry, le);
    ManifestAdvances(s, s.processes[p].frame.next, s.processes[p].entry, first, le);
  }

  lemma RenameKeepsInv(s: System, p: nat, first: Option<Contents>, le: Collation)
    requires Inv(s, first, le) && Enabled(s, Take(p, Rename))
    ensures Inv(Apply(s, Take(p, Rename), le), first, le)
  {
    QuietKeepsExclusive(s, p, Rename, le);
    HolderKeepsFrames(s, p, Rename, le);
    RenameKeepsManifest(s, p, first, le);
  }

  /** Reading the manifest gives the fold of what has been committed. */
  lemma ManifestReads(s: System, first: Option<Contents>, le: Collation)
    requires CommitsOk(s) && ManifestOk(s, first, le) && ReadManifest(s.disk.manifest).Some?
    ensures ReadManifest(first).Some?
    ensures ReadManifest(s.disk.manifest).value == Fold(ReadManifest(first).value, CommittedEntries(s), le)
  {
    if s.commits == [] { assert CommittedEntries(s) == []; }
    else { EntriesOfWrite(Fold(ReadManifest(first).value, CommittedEntries(s), le)); }
  }

  lemma ManifestAdvances(s: System, next: seq<Entry>, e: Entry, first: Option<Contents>, le: Collation)
    requires CommitsOk(s) && ManifestOk(s, first, le)
    requires ReadManifest(s.disk.manifest).Some? && next == Upsert(ReadManifest(s.disk.manifest).value, e, le)
    ensures ReadManifest(first).Some? && next == Fold(ReadManifest(first).value, CommittedEntries(s) + [e], le)
  {
    ManifestReads(s, first, le);
  }

  lemma StepKeepsInv(s: System, t: Step, first: Option<Contents>, le: Collation)
    requires Inv(s, first, le) && Enabled(s, t) && Disciplined(s, t)
    ensures Inv(Apply(s, t, le), first, le)
  {
    match t
    case Start(e) => StartKeepsInv(s, e, first, le);
    case Take(p, a) =>
      if a.Rename? { RenameKeepsInv(s, p, first, le); }
      else if a.BeginWrite? || a.EndWrite? { WriteKeepsInv(s, p, a, first, le); }
      else { QuietKeepsInv(s, p, a, first, le); }
  }

  lemma {:induction false} RunKeepsInv(s: System, steps: seq<Step>, first: Option<Contents>, le: Collation)
    requires Inv(s, first, le) && IsRun(s, steps, le)
    ensures Inv(After(s, steps, le), first, le)
    decreases |steps|
  {
    if steps == [] {
    } else {
      StepKeepsInv(s, steps[0], first, le);
      RunKeepsInv(Apply(s, steps[0], le), steps[1..], first, le);
    }
  }

  // ---------- every run ----------

  /**
   At most one process is between acquire and release; a reader finds the first manifest or a completely
   written one; and the manifest reads as the upserts of the processes that committed, applied one by one.
   */
  lemma ManifestGuarantees(manifest: Option<Contents>, temps: map<nat, Contents>, nextTemp: nat, steps: seq<Step>, le: Collation)
    requires forall t :: t in temps ==> t < nextTemp
    requires IsRun(Initial(manifest, temps, nextTemp), steps, le)
    ensures var s := After(Initial(manifest, temps, nextTemp), steps, le);
            && (forall p, q :: 0 <= p < q < |s.processes| ==>
                  !(Holds(s.processes[p].frame) && Holds(s.processes[q].frame)))
            && (s.disk.manifest == manifest || (s.disk.manifest.Some? && s.disk.manifest.value.Listing?))
            && CommitsOk(s)
            && (ReadManifest(manifest).Some? ==>
                  ReadManifest(s.disk.manifest) == Some(Fold(ReadManifest(manifest).value, CommittedEntries(s), le)))
            && (ReadManifest(manifest).None? ==> s.commits == [] && s.disk.manifest == manifest)
  {
    RunKeepsInv(Initial(manifest, temps, nextTemp), steps, manifest, le);
    var s := After(Initial(manifest, temps, nextTemp), steps, le);
    if ReadManifest(s.disk.manifest).Some? { ManifestReads(s, manifest, le); }
    if s.commits != [] { EntriesOfWrite(Fold(ReadManifest(manifest).value, CommittedEntries(s), le)); }
  }

  // ---------- what applying upserts one by one leaves ----------

  lemma {:induction false} WithoutCounts(entries: seq<Entry>, h: string, x: Entry)
    ensures multiset(Without(entries, h))[x] == if x.helperPath == h then 0 else multiset(entries)[x]
  {
    if entries != [] {
      WithoutCounts(entries[1..], h, x);
      assert entries == [entries[0]] + entries[1..];
    }
  }

  lemma UpsertCounts(existing: seq<Entry>, e: Entry, le: Collation, x: Entry)
    ensures multiset(Upsert(existing, e, le))[x] ==
            if x.helperPath == e.helperPath then (if x == e then 1 else 0) else multiset(existing)[x]
  {
    Ordering.SortCounts(Without(existing, e.helperPath) + [e], ByHelperPath(le));
    WithoutCounts(existing, e.helperPath, x);
  }

  /** The last of the upserts for a helper path. */
  function Last(upserts: seq<Entry>, h: string): Option<Entry> {
    if upserts == [] then None
    else if upserts[|upserts| - 1].helperPath == h then Some(upserts[|upserts| - 1])
    else Last(upserts[..|upserts| - 1], h)
  }

  /** No update is lost: each helper path that was committed has exactly its last entry, the others keep theirs. */
  lemma {:induction false} LastUpsertStays(existing: seq<Entry>, upserts: seq<Entry>, le: Collation, x: Entry)
    ensures multiset(Fold(existing, upserts, le))[x] ==
            match Last(upserts, x.helperPath)
            case Some(e) => if x == e then 1 else 0
            case None => multiset(existing)[x]
  {
    if upserts != [] {
      var init, e := upserts[..|upserts| - 1], upserts[|upserts| - 1];
      LastUpsertStays(existing, init, le, x);
      UpsertCounts(Fold(existing, init, le), e, le, x);
    }
  }

  /** Whatever was there before, an upsert leaves the manifest sorted by helper path. */
  lemma UpsertSorts(existing: seq<Entry>, e: Entry, le: Collation)
    requires Ordering.TotalPreorder(le)
    ensures forall i, j :: 0 <= i < j < |Upsert(existing, e, le)| ==>
              le(Upsert(existing, e, le)[i].helperPath, Upsert(existing, e, le)[j].helperPath)
  {
    var byPath := ByHelperPath(le);
    forall a: Entry, b: Entry
      ensures byPath(a, b) || byPath(b, a)
    {
      assert le(a.helperPath, b.helperPath) || le(b.helperPath, a.helperPath);
    }
    forall a: Entry, b: Entry, c: Entry | byPath(a, b) && byPath(b, c)
      ensures byPath(a, c)
    {
      assert le(a.helperPath, b.helperPath) && le(b.helperPath, c.helperPath);
    }
    Ordering.SortSorts(Without(existing, e.helperPath) + [e], byPath);
  }

  // ---------- reclaiming the lock ----------

  /** A lock only has to look stale: in this run a process is about to remove one that is still held. */
  lemma HeldLockLooksStale(manifest: Option<Contents>, holder: Entry, reclaimer: Entry, le: Collation)
    ensures var initial, steps :=
              Initial(manifest, map[], 0), [Start(holder), Start(reclaimer), Take(0, MakeLock), Take(1, SeeStale)];
            && IsRun(initial, steps, le)
            && var s := After(initial, steps, le);
            && Exclusive(s) && |s.processes| == 2 && Holds(s.processes[0].frame) && s.processes[1].frame.Reclaiming?
            && LockHeld(s) && !Disciplined(s, Take(1, RemoveStale))
  {
    var initial := Initial(manifest, map[], 0);
    var steps := [Start(holder), Start(reclaimer), Take(0, MakeLock), Take(1, SeeStale)];
    var both := Apply(Apply(initial, Start(holder), le), Start(reclaimer), le);
    var locked := Apply(both, Take(0, MakeLock), le);
    var s := Apply(locked, Take(1, SeeStale), le);
    assert steps[1..][1..] == [Take(0, MakeLock)] + [Take(1, SeeStale)];
    assert steps[1..][1..][1..] == [Take(1, SeeStale)];
    assert steps[1..][1..][1..][1..] == [];
    assert IsRun(locked, [Take(1, SeeStale)], le) && After(locked, [Take(1, SeeStale)], le) == s;
    assert IsRun(both, steps[1..][1..], le) && After(both, steps[1..][1..], le) == s;
    assert Holds(s.processes[0].frame);
  }

  /** No two processes are between acquire and release. */
  predicate Excludes(s: System) {
    forall p, q :: 0 <= p < q < |s.processes| ==> !(Holds(s.processes[p].frame) && Holds(s.processes[q].frame))
  }

  /** Every disciplined continuation keeps processes apart. */
  ghost predicate ExcludesFrom(s: System, le: Collation) {
    forall steps: seq<Step> :: IsRun(s, steps, le) ==> Excludes(After(s, steps, le))
  }

  lemma OneStepRun(s: System, t: Step, le: Collation)
    requires Enabled(s, t) && Disciplined(s, t)
    ensures IsRun(s, [t], le) && After(s, [t], le) == Apply(s, t, le)
  {
    assert [t][1..] == [];
  }

  /** The process that removes the lock can take it at once, beside the one that still holds it. */
  lemma RemovalLetsIn(s: System, p: nat, q: nat, le: Collation)
    requires p < |s.processes| && Holds(s.processes[p].frame)
    requires q < |s.processes| && s.processes[q].frame.Reclaiming?
    ensures !ExcludesFrom(Apply(s, Take(q, RemoveStale), le), le)
  {
    var removed := Apply(s, Take(q, RemoveStale), le);
    OneStepRun(removed, Take(q, MakeLock), le);
    var entered := After(removed, [Take(q, MakeLock)], le);
    assert Holds(entered.processes[q].frame) && Holds(entered.processes[p].frame);
    assert p < q || q < p;
  }

  /**
   In any state a disciplined run reaches, removing a lock keeps processes apart in every continuation
   exactly when no process is between acquire and release at that moment.
   */
  lemma RemovalBreaksExclusionIff(manifest: Option<Contents>, temps: map<nat, Contents>, nextTemp: nat, steps: seq<Step>,
                                  q: nat, le: Collation)
    requires forall t :: t in temps ==> t < nextTemp
    requires IsRun(Initial(manifest, temps, nextTemp), steps, le)
    requires var s := After(Initial(manifest, temps, nextTemp), steps, le);
             q < |s.processes| && s.processes[q].frame.Reclaiming?
    ensures var s := After(Initial(manifest, temps, nextTemp), steps, le);
            ExcludesFrom(Apply(s, Take(q, RemoveStale), le), le) <==> !LockHeld(s)
  {
    var s := After(Initial(manifest, temps, nextTemp), steps, le);
    RunKeepsInv(Initial(manifest, temps, nextTemp), steps, manifest, le);
    if p: nat :| p < |s.processes| && Holds(s.processes[p].frame) {
      RemovalLetsIn(s, p, q, le);
    } else {
      StepKeepsInv(s, Take(q, RemoveStale), manifest, le);
      var removed := Apply(s, Take(q, RemoveStale), le);
      forall more: seq<Step> | IsRun(removed, more, le)
        ensures Excludes(After(removed, more, le))
      {
        RunKeepsInv(removed, more, manifest, le);
      }
    }
  }
}
