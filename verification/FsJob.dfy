/** Filesystem operation records and their throttled write-back tracker
    (server/src/main/kernel.js, `createFsOperationTracker`). */
module FsJob {
  import opened Options
  import opened Clock
  import opened Numbers

  type Path = seq<string>

  datatype Status =
    Queued | Receiving | Running | Standby | Cancelling | Success | Partial | Failed | Cancelled

  predicate IsTerminal(s: Status) {
    s == Success || s == Partial || s == Failed || s == Cancelled
  }

  predicate IsCancellation(s: Status) {
    s == Cancelling || s == Cancelled
  }

  datatype Kind = Copy | Move | Delete | Upload

  datatype SizeRelation = Same | Different | Unknown

  datatype Conflict = Conflict(sourcePath: Path, targetPath: Path, relation: SizeRelation)

  datatype Policy = Policy(replaceAllDifferentSize: bool, skipAllSameSize: bool)

  /** The one-shot answer to the pending conflict. */
  datatype Resolution = Undecided | Replace | Skip

  datatype ManifestEntry = ManifestEntry(relativePath: string, size: nat)

  datatype Job = Job(
    kind: Kind,
    status: Status,
    destination: Path,
    sourcePaths: seq<Path>,
    cursor: nat,
    conflict: Option<Conflict>,
    policy: Policy,
    resolution: Resolution,
    failures: seq<Path>,
    processedBytes: nat,
    processedItems: nat,
    totalBytes: nat,
    totalItems: nat,
    manifest: seq<ManifestEntry>,
    uploadedFiles: seq<string>)

  const WRITE_INTERVAL_MS := 200

  ghost predicate Within(job: Job) {
    job.processedBytes <= job.totalBytes && job.processedItems <= job.totalItems
  }

  /** The file that holds one record; `None` when it does not exist. */
  type Disk = Option<Job>

  datatype TrackerState = TrackerState(current: Job, lastWriteAt: int)

  predicate CancellationRequested(disk: Disk) {
    disk.None? || IsCancellation(disk.value.status)
  }

  /** A write takes over a cancellation it finds on disk. */
  function Imposed(disk: Disk, job: Job): Job {
    if disk.Some? && IsCancellation(disk.value.status) then job.(status := disk.value.status) else job
  }

  function Persist(disk: Disk, t: TrackerState, now: int, force: bool): (Disk, TrackerState) {
    if !force && now - t.lastWriteAt < WRITE_INTERVAL_MS then (disk, t)
    else
      var job := Imposed(disk, t.current);
      (Some(job), TrackerState(job, now))
  }

  function Clamped(job: Job): Job {
    job.(processedBytes := Min(job.totalBytes, job.processedBytes),
         processedItems := Min(job.totalItems, job.processedItems))
  }

  function AfterFail(disk: Disk, t: TrackerState, path: Path, now: int): (Disk, TrackerState) {
    Persist(disk, t.(current := t.current.(failures := t.current.failures + [path])), now, false)
  }

  function AfterSet(disk: Disk, t: TrackerState, values: Job, now: int, force: bool): (Disk, TrackerState) {
    Persist(disk, t.(current := Clamped(values)), now, force)
  }

  function AfterTick(disk: Disk, t: TrackerState, bytes: nat, items: nat, now: int, force: bool): (Disk, TrackerState) {
    var job := t.current.(
      processedBytes := Min(t.current.totalBytes, t.current.processedBytes + bytes),
      processedItems := Min(t.current.totalItems, t.current.processedItems + items));
    Persist(disk, t.(current := job), now, force)
  }

  function AfterRefresh(disk: Disk, t: TrackerState): TrackerState {
    if disk.Some? then t.(current := disk.value) else t
  }

  /** What other code may do to the record of a transfer whose worker is running: nothing but
      ask it to stop. FsEngine proves that the request handlers keep to this. */
  predicate Interference(before: Disk, after: Disk) {
    || after == before
    || (before.Some? && before.value.status == Running && after == Some(before.value.(status := Cancelling)))
  }

  /** The parts of a record that stay put while one source entry is being transferred. */
  function Core(job: Job): Job {
    job.(status := Running, conflict := None, resolution := Undecided, processedBytes := 0, processedItems := 0)
  }

  /** `a` is `b` as it was written at some earlier point of the same source entry. */
  predicate EarlierWrite(a: Job, b: Job) {
    && a.processedBytes <= b.processedBytes && a.processedItems <= b.processedItems
    && Core(a) == Core(b)
  }

  /** The tracker's copy learns of a cancellation no earlier than the disk. */
  predicate StatusLag(copy: Status, disk: Status) {
    || copy == disk == Running
    || (IsCancellation(disk) && (copy == Running || IsCancellation(copy)))
  }

  class OperationFile {
    var disk: Disk
    var clock: Instant

    constructor (job: Job, clock: Instant)
      ensures disk == Some(job) && this.clock == clock
    {
      this.disk, this.clock := Some(job), clock;
    }

    method Now() returns (now: Instant)
      modifies this`clock
      ensures old(clock) <= now == clock
    {
      var passed: nat :| passed >= 0;
      clock := clock + passed;
      now := clock;
    }

    /** An `await`: the worker's turn ends and handlers may run. */
    method Yield()
      modifies this`disk
      ensures Interference(old(disk), disk)
    {
      var cancel: bool := *;
      if cancel && disk.Some? && disk.value.status == Running {
        disk := Some(disk.value.(status := Cancelling));
      }
    }

    method IsCancelled() returns (r: bool)
      ensures r == CancellationRequested(disk)
    {
      r := disk.None? || IsCancellation(disk.value.status);
    }
  }

  class FsOperationTracker {
    const file: OperationFile
    var current: Job
    var lastWriteAt: int

    constructor (file: OperationFile, job: Job)
      ensures this.file == file && State() == TrackerState(job, 0)
    {
      this.file := file;
      this.current, this.lastWriteAt := job, 0;
    }

    function State(): TrackerState
      reads this
    {
      TrackerState(current, lastWriteAt)
    }

    method PersistNow(force: bool)
      modifies this`current, this`lastWriteAt, file
      ensures old(file.clock) <= file.clock
      ensures (file.disk, State()) == Persist(old(file.disk), old(State()), file.clock, force)
    {
      var now := file.Now();
      if !force && now - lastWriteAt < WRITE_INTERVAL_MS {
        return;
      }
      if file.disk.Some? && IsCancellation(file.disk.value.status) {
        current := current.(status := file.disk.value.status);
      }
      lastWriteAt := now;
      file.disk := Some(current);
    }

    method Fail(path: Path)
      modifies this`current, this`lastWriteAt, file
      ensures old(file.clock) <= file.clock
      ensures (file.disk, State()) == AfterFail(old(file.disk), old(State()), path, file.clock)
    {
      current := current.(failures := current.failures + [path]);
      PersistNow(false);
    }

    method Refresh()
      modifies this`current
      ensures State() == AfterRefresh(file.disk, old(State()))
    {
      if file.disk.Some? {
        current := file.disk.value;
      }
    }

    /** `values` is the record with the given fields replaced. */
    method Set(values: Job, force: bool)
      modifies this`current, this`lastWriteAt, file
      ensures old(file.clock) <= file.clock
      ensures (file.disk, State()) == AfterSet(old(file.disk), old(State()), values, file.clock, force)
    {
      current := values;
      current := current.(processedBytes := Min(current.totalBytes, current.processedBytes));
      current := current.(processedItems := Min(current.totalItems, current.processedItems));
      PersistNow(force);
    }

    method Tick(bytes: nat, items: nat, force: bool)
      modifies this`current, this`lastWriteAt, file
      ensures old(file.clock) <= file.clock
      ensures (file.disk, State()) == AfterTick(old(file.disk), old(State()), bytes, items, file.clock, force)
    {
      current := current.(processedBytes := Min(current.totalBytes, current.processedBytes + bytes));
      current := current.(processedItems := Min(current.totalItems, current.processedItems + items));
      PersistNow(force);
    }

    /** Since the running record was `base`, only ticks have happened: `bytes` and `items` in all. */
    ghost predicate Ticking(base: Job, bytes: nat, items: nat)
      reads this, file
    {
      && current == base.(
           status := current.status,
           processedBytes := Min(base.totalBytes, base.processedBytes + bytes),
           processedItems := Min(base.totalItems, base.processedItems + items))
      && file.disk.Some?
      && EarlierWrite(file.disk.value, current)
      && StatusLag(current.status, file.disk.value.status)
    }

    /** Clamping step by step is the same as clamping the sum. */
    method TickOn(bytes: nat, items: nat, force: bool, ghost base: Job, ghost b: nat, ghost i: nat)
      requires Ticking(base, b, i)
      modifies this`current, this`lastWriteAt, file
      ensures Ticking(base, b + bytes, i + items)
      ensures IsCancellation(old(file.disk.value.status)) ==> IsCancellation(file.disk.value.status)
    {
      Tick(bytes, items, force);
    }
  }
}
