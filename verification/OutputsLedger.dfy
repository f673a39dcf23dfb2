/**
 Sweeping files that earlier builds generated and the current one does not
 (packages/cli/src/outputs-ledger.lib.ts).
 */
module OutputsLedger {
  import opened Wrappers

  /** A path relative to the working directory, by segments; it may start with "..". */
  type Path = seq<string>

  /** A file, and whether its content holds the generated-file marker. */
  datatype File = File(marked: bool)

  /** The ledger file: what it parses to, with its non-string items dropped. */
  datatype Ledger = Corrupt | NotAList | Listed(paths: seq<Path>)

  const ZELT := ".zelt"
  const LEDGER: Path := [ZELT, "outputs.json"]
  const CODEGEN: Path := [ZELT, "graphql-codegen.json"]

  predicate Protected(p: Path) {
    p == LEDGER || p == CODEGEN
  }

  predicate InZelt(p: Path) {
    |p| >= 2 && p[0] == ZELT
  }

  datatype Disk = Disk(files: map<Path, File>, ledger: Option<Ledger>)

  /** readLedger: None when the file does not parse. */
  function ReadLedger(ledger: Option<Ledger>): Option<seq<Path>> {
    match ledger
    case None => Some([])
    case Some(Corrupt) => None
    case Some(NotAList) => Some([])
    case Some(Listed(paths)) => Some(paths)
  }

  /** The outputs a build registers: in order, once each, without the protected paths. */
  function Registered(outputs: seq<Path>): (r: seq<Path>)
    ensures forall p :: p in r <==> p in outputs && !Protected(p)
  {
    if outputs == [] then []
    else
      var before := Registered(outputs[..|outputs| - 1]);
      var p := outputs[|outputs| - 1];
      assert outputs == outputs[..|outputs| - 1] + [p];
      if Protected(p) || p in before then before else before + [p]
  }

  predicate Stale(p: Path, current: seq<Path>) {
    p !in current && !Protected(p)
  }

  /** A stale file outside the directory is deleted only if it carries the marker. */
  predicate Deletable(p: Path, current: seq<Path>, files: map<Path, File>) {
    Stale(p, current) && p in files && (InZelt(p) || files[p].marked)
  }

  predicate Skipped(p: Path, current: seq<Path>, files: map<Path, File>) {
    Stale(p, current) && p in files && !InZelt(p) && !files[p].marked
  }

  /** The files left after the first `count` entries of the previous ledger have been looked at. */
  function SweptFiles(files: map<Path, File>, previous: seq<Path>, current: seq<Path>, count: nat): map<Path, File>
    requires count <= |previous|
  {
    map p | p in files && !(p in previous[..count] && Deletable(p, current, files)) :: files[p]
  }

  /** A sweep that stops after `count` entries has not rewritten the ledger. */
  function Crashed(d: Disk, outputs: seq<Path>, count: nat): Disk
    requires ReadLedger(d.ledger).Some? && count <= |ReadLedger(d.ledger).value|
  {
    d.(files := SweptFiles(d.files, ReadLedger(d.ledger).value, Registered(outputs), count))
  }

  function Swept(d: Disk, outputs: seq<Path>): Disk
    requires ReadLedger(d.ledger).Some?
  {
    var previous := ReadLedger(d.ledger).value;
    Disk(SweptFiles(d.files, previous, Registered(outputs), |previous|), Some(Listed(Registered(outputs))))
  }

  class Workspace {
    var files: map<Path, File>
    var ledger: Option<Ledger>

    ghost function State(): Disk
      reads this
    {
      Disk(files, ledger)
    }

    constructor (files: map<Path, File>)
      ensures State() == Disk(files, None)
    {
      this.files, ledger := files, None;
    }

    /** The sweep; `stopAfter` cuts it short after that many ledger entries. */
    method Sweep(outputs: seq<Path>, stopAfter: Option<nat>)
      returns (ok: bool, deleted: seq<Path>, skipped: seq<Path>)
      modifies this
      ensures ok <==> ReadLedger(old(ledger)).Some?
      ensures !ok ==> State() == old(State()) && deleted == skipped == []
      ensures ok ==>
                var previous := ReadLedger(old(ledger)).value;
                var seen := if stopAfter.Some? && stopAfter.value < |previous| then previous[..stopAfter.value] else previous;
                && (stopAfter.None? ==> State() == Swept(old(State()), outputs))
                && (stopAfter.Some? ==> State() == Crashed(old(State()), outputs, |seen|))
                && (forall p :: p in deleted <==> p in seen && Deletable(p, Registered(outputs), old(files)))
                && (forall p :: p in skipped <==> p in seen && Skipped(p, Registered(outputs), old(files)))
    {
      deleted, skipped := [], [];
      var current := Registered(outputs);
      var read := ReadLedger(ledger);
      if read.None? { return false, [], []; }
      var previous := read.value;
      var limit := if stopAfter.Some? && stopAfter.value < |previous| then stopAfter.value else |previous|;
      var i := 0;
      while i < limit
        invariant i <= limit
        invariant files == SweptFiles(old(files), previous, current, i)
        invariant ledger == old(ledger)
        invariant forall p :: p in deleted <==> p in previous[..i] && Deletable(p, current, old(files))
        invariant forall p :: p in skipped <==> p in previous[..i] && Skipped(p, current, old(files))
      {
        var rel := previous[i];
        assert previous[..i + 1] == previous[..i] + [rel];
        if rel !in current && !Protected(rel) && rel in files {
          if !InZelt(rel) && !files[rel].marked {
            skipped := skipped + [rel];
          } else {
            files := files - {rel};
            deleted := deleted + [rel];
          }
        }
        i := i + 1;
      }
      ok := true;
      if stopAfter.None? { ledger := Some(Listed(current)); }
    }
  }

  // ---------- builds, crashes and edits in any order ----------

  /** A build writes its outputs and sweeps, perhaps only part of the way; anyone may edit files in between. */
  datatype Step =
    | Edit(path: Path, file: Option<File>)
    | Build(outputs: seq<Path>, contents: Path -> File, stopAfter: Option<nat>)

  /** `ever` collects what completed builds registered; `deleted` what sweeps have deleted. */
  datatype History = History(disk: Disk, ever: set<Path>, deleted: seq<(Path, File)>)

  function WriteOutputs(files: map<Path, File>, outputs: seq<Path>, contents: Path -> File): map<Path, File> {
    files + map p | p in outputs :: contents(p)
  }

  function Deletions(before: map<Path, File>, after: map<Path, File>, previous: seq<Path>): seq<(Path, File)> {
    if previous == [] then []
    else
      (if previous[0] in before && previous[0] !in after then [(previous[0], before[previous[0]])] else [])
      + Deletions(before, after, previous[1..])
  }

  function Apply(h: History, s: Step): History {
    match s
    case Edit(path, file) =>
      h.(disk := h.disk.(files := if file.Some? then h.disk.files[path := file.value] else h.disk.files - {path}))
    case Build(outputs, contents, stopAfter) =>
      var written := h.disk.(files := WriteOutputs(h.disk.files, outputs, contents));
      match ReadLedger(h.disk.ledger)
      case None => h.(disk := written)
      case Some(previous) =>
        var disk := match stopAfter
                    case None => Swept(written, outputs)
                    case Some(n) => Crashed(written, outputs, if n < |previous| then n else |previous|);
        History(disk, if stopAfter.None? then h.ever + (set p | p in Registered(outputs)) else h.ever,
                h.deleted + Deletions(written.files, disk.files, previous))
  }

  function After(h: History, steps: seq<Step>): History
    decreases |steps|
  {
    if steps == [] then h else After(Apply(h, steps[0]), steps[1..])
  }

  function FromEmpty(files: map<Path, File>): History {
    History(Disk(files, None), {}, [])
  }
}

module OutputsLedgerProofs {
  import opened Wrappers
  import opened OutputsLedger

  ghost predicate SafeDeletion(p: Path, f: File, ever: set<Path>) {
    p in ever && !Protected(p) && (InZelt(p) || f.marked)
  }

  /** The ledger lists only what completed builds registered, and so does everything ever deleted. */
  ghost predicate Inv(h: History) {
    && (h.disk.ledger.Some? ==> h.disk.ledger.value.Listed?)
    && (forall p :: p in ReadLedger(h.disk.ledger).value ==> p in h.ever)
    && (forall e :: e in h.deleted ==> SafeDeletion(e.0, e.1, h.ever))
  }

  lemma {:induction false} DeletionsAre(before: map<Path, File>, after: map<Path, File>, previous: seq<Path>, e: (Path, File))
    requires e in Deletions(before, after, previous)
    ensures e.0 in previous && e.0 in before && e.0 !in after && e.1 == before[e.0]
  {
    if previous != [] {
      var first := if previous[0] in before && previous[0] !in after then [(previous[0], before[previous[0]])] else [];
      if e !in first { DeletionsAre(before, after, previous[1..], e); }
    }
  }

  /** One build deletes only paths of the previous ledger that it does not produce itself. */
  lemma BuildDeletesSafely(h: History, s: Step, k: nat)
    requires Inv(h) && s.Build? && |h.deleted| <= k < |Apply(h, s).deleted|
    ensures var (p, f) := Apply(h, s).deleted[k]; SafeDeletion(p, f, h.ever) && p !in s.outputs
  {
    var previous := ReadLedger(h.disk.ledger).value;
    var written := WriteOutputs(h.disk.files, s.outputs, s.contents);
    DeletionsAre(written, Apply(h, s).disk.files, previous, Apply(h, s).deleted[k]);
  }

  lemma StepKeepsInv(h: History, s: Step)
    requires Inv(h)
    ensures Inv(Apply(h, s)) && h.ever <= Apply(h, s).ever
  {
    if s.Build? {
      forall k | 0 <= k < |Apply(h, s).deleted|
        ensures SafeDeletion(Apply(h, s).deleted[k].0, Apply(h, s).deleted[k].1, Apply(h, s).ever)
      {
        if k < |h.deleted| { assert h.deleted[k] in h.deleted; } else { BuildDeletesSafely(h, s, k); }
      }
    }
  }

  lemma {:induction false} RunKeepsInv(h: History, steps: seq<Step>)
    requires Inv(h)
    ensures Inv(After(h, steps))
    decreases |steps|
  {
    if steps == [] {
    } else {
      StepKeepsInv(h, steps[0]);
      RunKeepsInv(Apply(h, steps[0]), steps[1..]);
    }
  }

  /**
   From an empty ledger, whatever builds, crashes and edits follow: a build deletes only files an earlier
   completed build registered, never its own outputs, and outside the directory only marked ones.
   */
  lemma OnlyGeneratedFilesDeleted(files: map<Path, File>, steps: seq<Step>, s: Step, k: nat)
    requires s.Build?
    requires var h := After(FromEmpty(files), steps); |h.deleted| <= k < |Apply(h, s).deleted|
    ensures var h := After(FromEmpty(files), steps);
            var (p, f) := Apply(h, s).deleted[k];
            SafeDeletion(p, f, h.ever) && p !in s.outputs
  {
    RunKeepsInv(FromEmpty(files), steps);
    BuildDeletesSafely(After(FromEmpty(files), steps), s, k);
  }

  /** After a completed sweep each path of the previous ledger is current, protected, gone, or skipped. */
  lemma SweepAccountsForLedger(d: Disk, outputs: seq<Path>, p: Path)
    requires ReadLedger(d.ledger).Some? && p in ReadLedger(d.ledger).value
    ensures p in Registered(outputs) || Protected(p) || p !in Swept(d, outputs).files || Skipped(p, Registered(outputs), d.files)
    ensures p in Registered(outputs) || Protected(p) || Skipped(p, Registered(outputs), d.files) ==>
              (p in Swept(d, outputs).files <==> p in d.files)
  {
    var previous := ReadLedger(d.ledger).value;
    assert previous[..|previous|] == previous;
  }

  /** Wherever a sweep stops, running it again ends exactly as if it had not stopped. */
  lemma CrashedSweepResumes(d: Disk, outputs: seq<Path>, count: nat)
    requires ReadLedger(d.ledger).Some? && count <= |ReadLedger(d.ledger).value|
    ensures Swept(Crashed(d, outputs, count), outputs) == Swept(d, outputs)
  {
    var previous, current := ReadLedger(d.ledger).value, Registered(outputs);
    assert previous[..|previous|] == previous;
    assert forall p :: p in previous[..count] ==> p in previous;
    assert Swept(Crashed(d, outputs, count), outputs).files == Swept(d, outputs).files;
  }

  /** A crash can orphan: a path written by a build that never rewrote the ledger is deleted only if a completed build registers it. */
  lemma UnregisteredSurvives(h: History, s: Step, p: Path)
    requires Inv(h) && s.Build? && p !in h.ever && p in h.disk.files
    ensures p in Apply(h, s).disk.files
  {
  }

  lemma {:induction false} DeletionsComplete(before: map<Path, File>, after: map<Path, File>, previous: seq<Path>, p: Path)
    requires p in previous && p in before && p !in after
    ensures (p, before[p]) in Deletions(before, after, previous)
  {
    if previous[0] != p { DeletionsComplete(before, after, previous[1..], p); }
  }

  /** Nothing vanishes in a build without being recorded as deleted. */
  lemma VanishedIsDeleted(h: History, s: Step, p: Path)
    requires Inv(h) && s.Build?
    requires p in WriteOutputs(h.disk.files, s.outputs, s.contents) && p !in Apply(h, s).disk.files
    ensures exists k :: |h.deleted| <= k < |Apply(h, s).deleted| && Apply(h, s).deleted[k].0 == p
  {
    var written, after := WriteOutputs(h.disk.files, s.outputs, s.contents), Apply(h, s).disk.files;
    var previous := ReadLedger(h.disk.ledger).value;
    DeletionsComplete(written, after, previous, p);
    var swept := Deletions(written, after, previous);
    var i :| 0 <= i < |swept| && swept[i] == (p, written[p]);
    assert Apply(h, s).deleted[|h.deleted| + i] == swept[i];
  }
}
