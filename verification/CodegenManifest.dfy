/**
 The GraphQL codegen manifest shared by parallel processes
 (packages/graphql/src/graphql-codegen-manifest.lib.ts): a lock directory used as a mutex, and a
 manifest replaced by renaming a finished temporary file over it.  A step is one file-system call.
 */
module CodegenManifest {
  import opened Wrappers
  import Ordering

  datatype Entry = Entry(sdlHash: string, schemaPath: string, helperPath: string)

  /** Parsed file contents; a list may hold items that are not entries. */
  datatype Contents = Truncated | NotAList | Listing(items: seq<Option<Entry>>)

  function Entries(items: seq<Option<Entry>>): seq<Entry> {
    if items == [] then [] else (if items[0].Some? then [items[0].value] else []) + Entries(items[1..])
  }

  /** readGraphqlCodegenManifest: None when the file does not parse. */
  function ReadManifest(file: Option<Contents>): Option<seq<Entry>> {
    match file
    case None => Some([])
    case Some(Truncated) => None
    case Some(NotAList) => Some([])
    case Some(Listing(items)) => Some(Entries(items))
  }

  function Write(entries: seq<Entry>): Contents {
    Listing(seq(|entries|, i requires 0 <= i < |entries| => Some(entries[i])))
  }

  /** The collation the source sorts by; any relation will do. */
  type Collation = Ordering.Comparison<string>

  function Without(entries: seq<Entry>, helperPath: string): seq<Entry> {
    if entries == [] then []
    else (if entries[0].helperPath == helperPath then [] else [entries[0]]) + Without(entries[1..], helperPath)
  }

  function ByHelperPath(le: Collation): Ordering.Comparison<Entry> {
    (a: Entry, b: Entry) => le(a.helperPath, b.helperPath)
  }

  function Upsert(existing: seq<Entry>, e: Entry, le: Collation): seq<Entry> {
    Ordering.Sort(Without(existing, e.helperPath) + [e], ByHelperPath(le))
  }

  // ---------- one process ----------

  /** Temporary files are named by fresh identifiers. */
  datatype Disk = Disk(lock: bool, manifest: Option<Contents>, temps: map<nat, Contents>, nextTemp: nat)

  /** What a process does next; from `Locked` to `Releasing` it is between acquire and release. */
  datatype Frame =
    | Acquiring
    | Reclaiming
    | Locked
    | HasRead(existing: seq<Entry>)
    | Writing(tmp: nat, next: seq<Entry>)
    | Written(tmp: nat, next: seq<Entry>)
    | Releasing(ok: bool)
    | Finished(ok: bool)
    | Crashed(committed: bool)

  predicate Holds(f: Frame) {
    f.Locked? || f.HasRead? || f.Writing? || f.Written? || f.Releasing?
  }

  predicate Committed(f: Frame) {
    (f.Releasing? && f.ok) || (f.Finished? && f.ok) || (f.Crashed? && f.committed)
  }

  datatype Action = MakeLock | SeeStale | RemoveStale | TimeOut | Read | BeginWrite | EndWrite | Rename | Fail | Release | Crash

  predicate CanAct(d: Disk, f: Frame, a: Action) {
    match a
    case MakeLock => f.Acquiring?
    case SeeStale => f.Acquiring? && d.lock
    case RemoveStale => f.Reclaiming?
    case TimeOut => f.Acquiring? && d.lock
    case Read => f.Locked?
    case BeginWrite => f.HasRead?
    case EndWrite => f.Writing?
    case Rename => f.Written? && f.tmp in d.temps
    case Fail => f.HasRead? || f.Writing? || f.Written?
    case Release => f.Releasing?
    case Crash => !f.Finished? && !f.Crashed?
  }

  /** The effect of one file-system call on the disk and on the process that makes it. */
  function Act(d: Disk, f: Frame, e: Entry, a: Action, le: Collation): (Disk, Frame)
    requires CanAct(d, f, a)
  {
    match a
    case MakeLock => if d.lock then (d, f) else (d.(lock := true), Locked)
    case SeeStale => (d, Reclaiming)
    case RemoveStale => (d.(lock := false), Acquiring)
    case TimeOut => (d, Finished(false))
    case Read =>
      (match ReadManifest(d.manifest)
       case None => (d, Releasing(false))
       case Some(existing) => (d, HasRead(existing)))
    case BeginWrite =>
      (d.(temps := d.temps[d.nextTemp := Truncated], nextTemp := d.nextTemp + 1), Writing(d.nextTemp, Upsert(f.existing, e, le)))
    case EndWrite => (d.(temps := d.temps[f.tmp := Write(f.next)]), Written(f.tmp, f.next))
    case Rename => (d.(manifest := Some(d.temps[f.tmp]), temps := d.temps - {f.tmp}), Releasing(true))
    case Fail => (d, Releasing(false))
    case Release => (d.(lock := false), Finished(f.ok))
    case Crash => (d, Crashed(Committed(f)))
  }

  // ---------- many processes ----------

  datatype Process = Process(entry: Entry, frame: Frame)

  /** `commits` lists, for an observer, the processes whose rename has happened, in order. */
  datatype System = System(disk: Disk, processes: seq<Process>, commits: seq<nat>)

  datatype Step = Start(entry: Entry) | Take(process: nat, action: Action)

  predicate Enabled(s: System, t: Step) {
    t.Take? ==> t.process < |s.processes| && CanAct(s.disk, s.processes[t.process].frame, t.action)
  }

  function Apply(s: System, t: Step, le: Collation): System
    requires Enabled(s, t)
  {
    match t
    case Start(entry) => s.(processes := s.processes + [Process(entry, Acquiring)])
    case Take(p, a) =>
      var (d, f) := Act(s.disk, s.processes[p].frame, s.processes[p].entry, a, le);
      System(d, s.processes[p := s.processes[p].(frame := f)], s.commits + if a.Rename? then [p] else [])
  }

  predicate LockHeld(s: System) {
    exists p :: 0 <= p < |s.processes| && Holds(s.processes[p].frame)
  }

  /** A lock is reclaimed only when the process that took it has crashed. */
  predicate Disciplined(s: System, t: Step) {
    t.Take? && t.action.RemoveStale? ==> !LockHeld(s)
  }

  predicate IsRun(s: System, steps: seq<Step>, le: Collation)
    decreases |steps|
  {
    steps == [] ||
    (Enabled(s, steps[0]) && Disciplined(s, steps[0]) && IsRun(Apply(s, steps[0], le), steps[1..], le))
  }

  function After(s: System, steps: seq<Step>, le: Collation): System
    requires IsRun(s, steps, le)
    decreases |steps|
  {
    if steps == [] then s else After(Apply(s, steps[0], le), steps[1..], le)
  }

  /** A directory with a readable manifest or none, no lock and perhaps orphaned temporary files. */
  function Initial(manifest: Option<Contents>, temps: map<nat, Contents>, nextTemp: nat): System {
    System(Disk(false, manifest, temps, nextTemp), [], [])
  }

  function CommittedEntries(s: System): seq<Entry>
    requires forall p :: p in s.commits ==> p < |s.processes|
  {
    seq(|s.commits|, i requires 0 <= i < |s.commits| => assert s.commits[i] in s.commits; s.processes[s.commits[i]].entry)
  }

  /** The upserts applied one by one. */
  function Fold(existing: seq<Entry>, upserts: seq<Entry>, le: Collation): seq<Entry> {
    if upserts == [] then existing
    else Upsert(Fold(existing, upserts[..|upserts| - 1], le), upserts[|upserts| - 1], le)
  }
}
