/** What the worker's own steps leave in a record that nobody has asked to stop, in every reachable
    state (server/src/main/kernel.js, `enqueueFsOperation` and the ends of the three jobs). */
module FsSteps {
  import opened Options
  import opened Clock
  import opened FsJob
  import opened FsEngine

  predicate AtWork(e: Engine, k: nat, id: Id) {
    k < |e.chain| && e.chain[k].id == id && e.chain[k].phase.Busy? && id in e.disk
  }

  /** A link whose turn has come starts its worker on a record that is not over, and only on such a
      one; any other record it leaves as it is. */
  lemma StartsWhatIsQueued(steps: seq<Step>, k: nat)
    requires MayStart(Run(steps), k)
    ensures var e := Run(steps);
      var id, f := e.chain[k].id, Apply(e, WorkerStart(k));
      && (forall j :: 0 <= j < k ==> e.chain[j].phase.Settled?)
      && |f.chain| == |e.chain| && f.chain[k].id == id
      && if id in e.disk && e.disk[id].status == Queued
         then f.disk == e.disk[id := e.disk[id].(status := Running)] && AtWork(f, k, id)
         else f.disk == e.disk && f.chain[k].phase == Settled
  {
    var e := Run(steps);
    RunInvariant(steps);
    assert LinkOk(e, e.chain[k]);
    forall j | 0 <= j < k
      ensures e.chain[j].phase.Settled?
    {
      assert e.chain[k - 1].phase.Settled?;
    }
  }

  /** A worker that winds up reports its outcome. */
  lemma EndsAsItReports(steps: seq<Step>, k: nat, id: Id, values: Job, outcome: Status, now: Instant)
    requires AtWork(Run(steps), k, id) && id !in Run(steps).dismissed && Run(steps).disk[id].status == Running
    requires outcome == Success || outcome == Partial || outcome == Status.Failed
    ensures var e := Run(steps);
      var f := Apply(e, WorkerFinish(k, values, outcome, now));
      && id in f.disk && f.disk[id] == values.(kind := e.disk[id].kind, status := outcome)
      && k < |f.chain| && f.chain[k].phase == Settled
  {
    RunInvariant(steps);
    var e := Run(steps);
    assert LinkOk(e, e.chain[k]) && RecordOk(e, id);
  }

  /** One that throws leaves a failure, or, if it was asked to stop, a finished cancellation. */
  lemma ThrowingFails(steps: seq<Step>, k: nat, id: Id)
    requires AtWork(Run(steps), k, id)
    ensures var e := Run(steps);
      var f := Apply(e, WorkerThrow(k));
      && id in f.disk && f.disk == e.disk[id := f.disk[id]]
      && f.disk[id].status == (if e.disk[id].status == Running then Status.Failed else Cancelled)
      && k < |f.chain| && f.chain[k].phase == Settled
  {
    RunInvariant(steps);
    var e := Run(steps);
    assert LinkOk(e, e.chain[k]);
  }

  /** A transfer that pauses is put on standby, and its link settles. */
  lemma PausesOnStandby(steps: seq<Step>, k: nat, id: Id, values: Job, now: Instant)
    requires AtWork(Run(steps), k, id) && id !in Run(steps).dismissed && Run(steps).disk[id].status == Running
    requires Run(steps).disk[id].kind == Copy || Run(steps).disk[id].kind == Move
    ensures var e := Run(steps);
      var f := Apply(e, WorkerPause(k, values, now));
      && id in f.disk && f.disk[id] == values.(kind := e.disk[id].kind, status := Standby)
      && k < |f.chain| && f.chain[k].phase == Settled
  {
    RunInvariant(steps);
    var e := Run(steps);
    assert LinkOk(e, e.chain[k]) && RecordOk(e, id);
  }

  /** A progress note of an upload counts the files stored and the bytes of the one that is arriving. */
  lemma ProgressNoted(e: Engine, r: RequestId, bytes: nat)
    requires r in e.incoming && !e.incoming[r].refused
    ensures var id := e.incoming[r].id;
      var f := Apply(e, UploadChunk(r, bytes, true));
      if id !in e.disk || e.disk[id].status == Cancelling || e.disk[id].status == Cancelled then
        f == e.(incoming := e.incoming[r := e.incoming[r].(refused := true)])
      else
        var seen := SumSizes(e.disk[id].manifest, e.disk[id].uploadedFiles) + bytes;
        f == e.(disk := e.disk[id := e.disk[id].(
          processedBytes := if seen <= e.disk[id].totalBytes then seen else e.disk[id].totalBytes)])
  {
  }

  /** A check notices a request to stop, and nothing else makes a worker stop; a refresh reads the disk;
      neither writes. */
  lemma ChecksAndRefreshes(steps: seq<Step>, k: nat, id: Id)
    requires AtWork(Run(steps), k, id)
    ensures var e := Run(steps);
      var checked, refreshed := Apply(e, WorkerCheck(k)), Apply(e, WorkerRefresh(k));
      && checked.disk == e.disk && AtWork(checked, k, id)
      && (checked.chain[k].phase.stop <==>
            e.chain[k].phase.stop || e.disk[id].status == Cancelling || e.disk[id].status == Cancelled)
      && checked.chain[k].phase.tracker == e.chain[k].phase.tracker
      && refreshed.disk == e.disk && AtWork(refreshed, k, id)
      && refreshed.chain[k].phase.tracker.current == e.disk[id]
      && refreshed.chain[k].phase.stop == e.chain[k].phase.stop
  {
  }

  /** What a worker writes reaches the disk when it forces it, or when its last write was 200 ms ago;
      a cancellation that it finds there stays. */
  lemma WritesExactly(steps: seq<Step>, k: nat, id: Id, values: Job, now: Instant, force: bool)
    requires AtWork(Run(steps), k, id)
    ensures var e := Run(steps);
      var tracker := e.chain[k].phase.tracker;
      var f := Apply(e, WorkerWrite(k, values, now, force));
      if force || now - tracker.lastWriteAt >= 200 then
        id in f.disk && f.disk == e.disk[id := f.disk[id]] && f.disk[id] == values.(
          kind := e.disk[id].kind,
          status := if e.disk[id].status == Cancelling || e.disk[id].status == Cancelled
                    then e.disk[id].status else tracker.current.status)
      else f.disk == e.disk
  {
    RunInvariant(steps);
    var e := Run(steps);
    assert LinkOk(e, e.chain[k]) && RecordOk(e, id);
  }
}
