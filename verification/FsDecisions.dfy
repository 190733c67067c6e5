/** What the answers of the user come to on the volume, decision by decision
    (server/src/handlers/files-handlers.js, lines 210-245; server/src/main/kernel.js, lines 7644-7716). */
module FsDecisions {
  import opened Options
  import opened FsJob
  import opened FsTree
  import opened FsConflict
  import opened FsLedger
  import opened FsTransfer

  predicate FilesOfOneSize(u: Tree, src: Path, dst: Path) {
    && src in u && u[src].File? && dst in u && u[dst].File?
    && |u[src].data| == |u[dst].data|
  }

  predicate FilesOfTwoSizes(u: Tree, src: Path, dst: Path) {
    && src in u && u[src].File? && dst in u && u[dst].File?
    && |u[src].data| != |u[dst].data|
  }

  /** The turn of the event at `n` was taken right after an answer. */
  predicate JustAnswered(log: seq<Event>, n: nat)
    requires n < |log|
  {
    n > 0 && log[n - 1].Answered?
  }

  /** A source that asked finds its target as it was when it asked; a bulk answer compares their sizes. */
  lemma AnsweredTarget(leads: Resolver, plan: Plan, t: Tree, turns: seq<Turn>, log: seq<Event>, n: nat)
    requires plan.Valid() && |turns| <= |plan.sources| && PausesTold(leads, plan, t, turns, log)
    requires Replay(log).Some? && LogMatches(log, turns, |turns|)
    requires n < |log| && log[n].Took? && JustAnswered(log, n)
    ensures var k := log[n].index; k < |turns| && Exists(leads, TreeAt(t, turns, k), plan.Target(k))
    ensures var k := log[n].index; var u, src, dst := TreeAt(t, turns, k), plan.sources[k], plan.Target(k);
      && (log[n - 1].decision == SkipAllSame ==> FilesOfOneSize(u, src, dst))
      && (log[n - 1].decision == ReplaceAllDifferent ==> FilesOfTwoSizes(u, src, dst))
  {
    assert TookMatches(log, turns, n);
    BulkAnswersItsKind(log, n - 1);
    AnswerUsedAtOnce(log, n - 1);
    assert PauseTold(leads, plan, t, turns, log[n - 2]);
  }

  /** What was decided when a source was taken, in the words of the log. */
  lemma UnderTheAnswer(turns: seq<Turn>, log: seq<Event>, n: nat)
    requires Replay(log).Some? && LogMatches(log, turns, |turns|) && n < |log| && log[n].Took?
    ensures var k := log[n].index;
      && k < |turns| && turns[k].how == log[n].how
      && var p := turns[k].under;
         && (p.phase == Decided(Replace) <==> n > 0 && SaysReplace(log[n - 1]))
         && (p.phase == Decided(Skip) <==> n > 0 && SaysSkip(log[n - 1]))
         && (p.phase == Working <==> !JustAnswered(log, n))
         && (p.policy.replaceAllDifferentSize <==> Answered(ReplaceAllDifferent) in log[..n])
         && (p.policy.skipAllSameSize <==> Answered(SkipAllSame) in log[..n])
  {
    assert TookMatches(log, turns, n);
    DecidedByAnswer(log, n);
    PolicyGivenExactly(log[..n]);
    ReplayPrefix(log, n + 1);
    assert log[..n + 1][..n] == log[..n];
  }

  /** The target of a source is left as it is, even by a turn that fails, unless the answer just given
      for it was to replace; or, without an answer, unless all of different size are to be replaced
      and both are files of different size, or what is there is a link that leads nowhere. */
  lemma TargetsTouchedForAReason(
      leads: Resolver, plan: Plan, t: Tree, turns: seq<Turn>, log: seq<Event>, n: nat)
    requires plan.Valid() && |turns| <= |plan.sources| && AllFit(leads, plan, t, turns)
    requires Replay(log).Some? && LogMatches(log, turns, |turns|) && PausesTold(leads, plan, t, turns, log)
    requires n < |log| && log[n].Took?
    ensures log[n].index < |turns|
    ensures var k := log[n].index; var u, src, dst := TreeAt(t, turns, k), plan.sources[k], plan.Target(k);
      Touches(u, turns[k], dst) ==>
        if JustAnswered(log, n) then log[n - 1] == Answered(ReplaceOne) || log[n - 1] == Answered(ReplaceAllDifferent)
        else
          || (Answered(ReplaceAllDifferent) in log[..n] && FilesOfTwoSizes(u, src, dst))
          || Unseen(leads, u, src, dst, plan.kind == Move)
  {
    UnderTheAnswer(turns, log, n);
    var k := log[n].index;
    assert Fits(leads, plan, t, turns, k);
    if JustAnswered(log, n) {
      AnsweredTarget(leads, plan, t, turns, log, n);
    }
  }

  /** A source is passed over only if that was the answer just given for it, or, without an answer, if
      all of the same size are to be skipped and both are files of the same size. */
  lemma SkippedForAReason(
      leads: Resolver, plan: Plan, t: Tree, turns: seq<Turn>, log: seq<Event>, n: nat)
    requires plan.Valid() && |turns| <= |plan.sources| && AllFit(leads, plan, t, turns)
    requires Replay(log).Some? && LogMatches(log, turns, |turns|)
    requires n < |log| && log[n].Took? && log[n].how == Skipped
    ensures log[n].index < |turns|
    ensures var k := log[n].index; var u, src, dst := TreeAt(t, turns, k), plan.sources[k], plan.Target(k);
      && Exists(leads, u, dst) && turns[k].after == u
      && if JustAnswered(log, n) then log[n - 1] == Answered(SkipOne) || log[n - 1] == Answered(SkipAllSame)
         else Answered(SkipAllSame) in log[..n] && FilesOfOneSize(u, src, dst)
  {
    UnderTheAnswer(turns, log, n);
    assert Fits(leads, plan, t, turns, log[n].index);
  }

  /** The converse: what each answer has done by the end of its source's turn. */
  lemma AnswersObeyed(
      leads: Resolver, plan: Plan, t: Tree, turns: seq<Turn>, log: seq<Event>, n: nat)
    requires plan.Valid() && |turns| <= |plan.sources| && AllFit(leads, plan, t, turns)
    requires Replay(log).Some? && LogMatches(log, turns, |turns|) && PausesTold(leads, plan, t, turns, log)
    requires n < |log| && log[n].Took? && JustAnswered(log, n)
    ensures log[n].index < |turns|
    ensures var k := log[n].index; var u, src, dst := TreeAt(t, turns, k), plan.sources[k], plan.Target(k);
      match log[n - 1].decision
      case SkipOne => !Touches(u, turns[k], dst) && (turns[k].how == Skipped || turns[k].how == Errored)
      case SkipAllSame =>
        && !Touches(u, turns[k], dst) && (turns[k].how == Skipped || turns[k].how == Errored)
        && FilesOfOneSize(u, src, dst)
      case ReplaceOne => turns[k].how == Replaced || turns[k].how == Errored
      case ReplaceAllDifferent =>
        (turns[k].how == Replaced || turns[k].how == Errored) && FilesOfTwoSizes(u, src, dst)
  {
    UnderTheAnswer(turns, log, n);
    AnsweredTarget(leads, plan, t, turns, log, n);
    assert Fits(leads, plan, t, turns, log[n].index);
  }

  /** A bulk answer settles the later targets of its kind in the same way. */
  lemma BulkAnswersObeyed(
      leads: Resolver, plan: Plan, t: Tree, turns: seq<Turn>, log: seq<Event>, n: nat)
    requires plan.Valid() && |turns| <= |plan.sources| && AllFit(leads, plan, t, turns)
    requires Replay(log).Some? && LogMatches(log, turns, |turns|)
    requires n < |log| && log[n].Took? && !JustAnswered(log, n) && log[n].how != Errored
    ensures log[n].index < |turns|
    ensures var k := log[n].index; var u, src, dst := TreeAt(t, turns, k), plan.sources[k], plan.Target(k);
      && (Answered(SkipAllSame) in log[..n] && FilesOfOneSize(u, src, dst) ==> turns[k].how == Skipped)
      && (Answered(ReplaceAllDifferent) in log[..n] && FilesOfTwoSizes(u, src, dst) ==> turns[k].how == Replaced)
      && (!FilesOfOneSize(u, src, dst) && !FilesOfTwoSizes(u, src, dst) ==> turns[k].how == Delivered)
  {
    UnderTheAnswer(turns, log, n);
    assert Fits(leads, plan, t, turns, log[n].index);
  }
}
