/** Transactions from beginning to end: how a job comes to its nonce, what the end
    of its transaction function sets in motion, and what it leaves behind. */
module NonceRuns {
  import opened Wrappers
  import opened NonceMachine

  // ------------------------------------------------------ how a job comes to end

  /** The three ways in which a transaction function ends. */
  predicate Ends(e: Event, j: nat) { (e.BodyReturns? || e.BodyFails? || e.BodyConsumed?) && e.job == j }

  /** How job j's transaction function, running when es begins, ends in es. */
  function Ending(es: seq<Event>, j: nat): Option<Event> {
    if es == [] then None
    else
      var front, last := Ending(es[..|es| - 1], j), es[|es| - 1];
      if front.None? && Ends(last, j) then Some(last) else front
  }

  /** Where a job with nonce n can then be. */
  predicate OnCourse(pc: Pc, n: nat, ending: Option<Event>) {
    match ending
    case None => pc == Body(n)
    case Some(BodyReturns(_)) => pc == Delay(n) || pc.Settled?
    case Some(BodyFails(_)) => pc.Settled? || (Reading(pc) && pc.why == AfterFailure(n))
    case Some(BodyConsumed(_)) => pc.Settled? || (Reading(pc) && pc.why == AfterConsumed(n, n + 1))
    case Some(_) => false
  }

  ghost predicate NoCrash(es: seq<Event>) { forall i :: 0 <= i < |es| ==> !es[i].Crash? }

  lemma SettledStays(a: Account, e: Event, j: nat)
    requires At(a, j) && a.jobs[j].pc.Settled? && !e.Crash?
    ensures At(Step(a, e), j) && Step(a, e).jobs[j].pc.Settled?
  {
    if OfRead(e) {
      if e.job != j {
        JobsAreKept(a, e);
        OtherReadsLeaveItAlone(a, e, j);
      }
    } else if Jobless(e) || e.job != j {
      JobsAreKept(a, e);
      OthersLeaveItAlone(a, e, j);
    }
  }

  lemma JobsAreKept(a: Account, e: Event)
    requires !e.Crash?
    ensures |a.jobs| <= |Step(a, e).jobs|
  {
    if e.FloorCleared? && At(a, e.job) && a.jobs[e.job].pc.ClearFloor? && CanEnd(a, e.outcome) {
      var pc := a.jobs[e.job].pc;
      DeliverKeepsJobs(AfterClearing(a, pc.observed, e.outcome), e.job, pc.why, ClearingGives(pc, e.outcome.Cleared?));
    }
  }

  lemma DeliverKeepsJobs(a: Account, j: nat, why: Why, r: Option<nat>)
    requires At(a, j)
    ensures |Deliver(a, j, why, r).jobs| == |a.jobs|
  {
  }

  lemma CourseIsKept(a: Account, e: Event, j: nat, n: nat, ending: Option<Event>)
    requires Inv(a) && !e.Crash? && At(a, j) && OnCourse(a.jobs[j].pc, n, ending)
    ensures At(Step(a, e), j)
    ensures OnCourse(Step(a, e).jobs[j].pc, n, if ending.None? && Ends(e, j) then Some(e) else ending)
  {
    JobsAreKept(a, e);
    var pc := a.jobs[j].pc;
    assert PcOk(a, pc);
    if pc.Settled? {
      SettledStays(a, e, j);
    } else if Step(a, e).jobs[j].pc != pc {
      MovedByItsOwnEvent(a, e, j);
      OwnEventsKeepTheCourse(a, e, j, n, ending);
    }
  }

  lemma OwnEventsKeepTheCourse(a: Account, e: Event, j: nat, n: nat, ending: Option<Event>)
    requires At(a, j) && PcOk(a, a.jobs[j].pc) && OnCourse(a.jobs[j].pc, n, ending) && Active(a.jobs[j].pc)
    requires !Jobless(e) && e.job == j && At(Step(a, e), j)
    ensures OnCourse(Step(a, e).jobs[j].pc, n, if ending.None? && Ends(e, j) then Some(e) else ending)
  {
    if Reading(a.jobs[j].pc) && OfRead(e) {
      ReadsKeepTheirPurpose(a, e, j);
    }
  }

  /** A read made after a failure goes on for that reason or settles the job. */
  lemma ReadsKeepTheirPurpose(a: Account, e: Event, j: nat)
    requires At(a, j) && Reading(a.jobs[j].pc) && !a.jobs[j].pc.why.Fresh?
    requires OfRead(e) && e.job == j && At(Step(a, e), j)
    ensures var pc := Step(a, e).jobs[j].pc; pc.Settled? || (Reading(pc) && pc.why == a.jobs[j].pc.why)
  {
  }

  /** Along every fair run without a crash, with other jobs doing whatever they do:
      while its transaction function runs a job keeps its nonce; after it has
      returned only the pause is left; after it has thrown the job asks for the
      pending nonce, for the reason it was given, until it is settled. */
  lemma {:induction false} TransactionsTakeTheirCourse(a: Account, es: seq<Event>, j: nat, n: nat)
    requires Reached(a) && At(a, j) && a.jobs[j].pc == Body(n) && FairRun(a, es) && NoCrash(es)
    ensures At(StepAll(a, es), j) && OnCourse(StepAll(a, es).jobs[j].pc, n, Ending(es, j))
  {
    if es != [] {
      var last := |es| - 1;
      PrefixIsFair(a, es, last);
      TransactionsTakeTheirCourse(a, es[..last], j, n);
      FairRunsReach(a, es[..last]);
      ReachedIsInv(StepAll(a, es[..last]));
      CourseIsKept(StepAll(a, es[..last]), es[last], j, n, Ending(es[..last], j));
    }
  }

  /** The next nonce that the end of a transaction leaves. When its function has
      returned, the one after its own. When it has thrown, what the readers and the
      floor come to, or its own successor when they could not be asked; and with its
      nonce consumed never less than that. */
  lemma TransactionsSettleAsTheyEnded(
      a: Account, es: seq<Event>, t: Account, e: Event, u: Account, j: nat, n: nat)
    requires Reached(a) && At(a, j) && a.jobs[j].pc == Body(n) && FairRun(a, es) && NoCrash(es)
    requires t == StepAll(a, es) && Fair(t, e) && !e.Crash? && u == Step(t, e)
    requires At(t, j) && !t.jobs[j].pc.Settled? && At(u, j) && u.jobs[j].pc.Settled?
    ensures LeavesNext(t, e, j, n, Ending(es, j), u.next)
  {
    TransactionsTakeTheirCourse(a, es, j, n);
    FairRunsReach(a, es);
    ReachedIsInv(t);
    SettlesAsItEnded(t, e, u, j, n, Ending(es, j));
  }

  predicate LeavesNext(t: Account, e: Event, j: nat, n: nat, ending: Option<Event>, next: Option<nat>)
    requires At(t, j)
  {
    var pc := t.jobs[j].pc;
    match ending
    case None => false
    case Some(BodyReturns(_)) => e == DelayOver(j) && next == Some(n + 1)
    case Some(BodyFails(_)) => Reading(pc) && next == Some(if Threw(pc, e) then n + 1 else Answer(t, pc, e))
    case Some(BodyConsumed(_)) =>
      Reading(pc) && next == Some(if Threw(pc, e) then n + 1 else Max(n + 1, Answer(t, pc, e)))
    case Some(_) => false
  }

  lemma SettlesAsItEnded(t: Account, e: Event, u: Account, j: nat, n: nat, ending: Option<Event>)
    requires Inv(t) && Fair(t, e) && At(t, j) && !t.jobs[j].pc.Settled? && OnCourse(t.jobs[j].pc, n, ending)
    requires u == Step(t, e) && At(u, j) && u.jobs[j].pc.Settled?
    ensures LeavesNext(t, e, j, n, ending, u.next)
  {
    EndingsAreExact(t, e, j);
    MovedByItsOwnEvent(t, e, j);
  }

  // ---------------------------------------------------------- reads go forward

  /** How many answers a read can still be waiting for. */
  function Ahead(pc: Pc): nat {
    match pc
    case ReadPending(_) => 5
    case ReadChainId(_, _) => 4
    case ReadFloor(_, _) => 3
    case ReadBlock(_, _, _) => 2
    case ClearFloor(_, _, _, _) => 1
    case _ => 0
  }

  /** The event is what job j is waiting for. */
  predicate Awaited(a: Account, j: nat, e: Event)
    requires At(a, j)
  {
    OfRead(e) && e.job == j &&
    match a.jobs[j].pc
    case ReadPending(_) => e.PendingRead?
    case ReadChainId(_, _) => e.ChainId?
    case ReadFloor(_, _) => e.FloorRead?
    case ReadBlock(_, _, _) => e.BlockRead?
    case ClearFloor(_, _, _, _) => e.FloorCleared? && CanEnd(a, e.outcome)
    case _ => false
  }

  /** Whatever is answered, and whether or not it fails: a read goes on to a later
      wait or is over, and then its job is settled or has been handed the nonce
      that the read came to. */
  lemma EveryAnswerMovesOn(a: Account, e: Event, j: nat)
    requires Reached(a) && Fair(a, e) && At(a, j) && Awaited(a, j, e)
    ensures At(Step(a, e), j) && Ahead(Step(a, e).jobs[j].pc) < Ahead(a.jobs[j].pc)
    ensures Ahead(Step(a, e).jobs[j].pc) == 0 ==> OverWith(a, e, a.jobs[j].pc, Step(a, e).jobs[j].pc)
  {
    ReachedIsInv(a);
    JobsAreKept(a, e);
    assert PcOk(a, a.jobs[j].pc);
    AnswersMoveOn(a, e, j);
  }

  lemma AnswersMoveOn(a: Account, e: Event, j: nat)
    requires At(a, j) && Awaited(a, j, e) && PcOk(a, a.jobs[j].pc) && Fair(a, e) && At(Step(a, e), j)
    ensures Ahead(Step(a, e).jobs[j].pc) < Ahead(a.jobs[j].pc)
    ensures Ahead(Step(a, e).jobs[j].pc) == 0 ==> OverWith(a, e, a.jobs[j].pc, Step(a, e).jobs[j].pc)
  {
    match e
    case FloorRead(_, _) => FloorAnswersMoveOn(a, e, j);
    case FloorCleared(_, _) => ClearingsMoveOn(a, e, j);
    case _ =>
  }

  /** The read before has come to its end: its job is settled or holds the answer. */
  predicate OverWith(a: Account, e: Event, before: Pc, pc: Pc)
    requires Reading(before)
  {
    if before.why.Fresh? && !Threw(before, e) then pc == Body(Answer(a, before, e)) else pc.Settled?
  }

  lemma FloorAnswersMoveOn(a: Account, e: Event, j: nat)
    requires At(a, j) && Awaited(a, j, e) && PcOk(a, a.jobs[j].pc) && e.FloorRead? && At(Step(a, e), j)
    ensures Ahead(Step(a, e).jobs[j].pc) < Ahead(a.jobs[j].pc)
    ensures Ahead(Step(a, e).jobs[j].pc) == 0 ==> OverWith(a, e, a.jobs[j].pc, Step(a, e).jobs[j].pc)
  {
  }

  lemma ClearingsMoveOn(a: Account, e: Event, j: nat)
    requires At(a, j) && Awaited(a, j, e) && PcOk(a, a.jobs[j].pc) && e.FloorCleared? && At(Step(a, e), j)
    ensures Ahead(Step(a, e).jobs[j].pc) < Ahead(a.jobs[j].pc)
    ensures Ahead(Step(a, e).jobs[j].pc) == 0 ==> OverWith(a, e, a.jobs[j].pc, Step(a, e).jobs[j].pc)
  {
  }

  // ------------------------------------------------------------ whole episodes

  /** A read that goes well while the shown floor stands delivers the larger of the
      answer and that floor. */
  lemma WeighingDelivers(a: Account, j: nat, why: Why, v: nat, block: Option<nat>)
    requires At(a, j) && a.jobs[j].pc == ReadFloor(why, v) && Standing(a, block)
    ensures var t := Step(Step(Step(a, FloorRead(j, true)), BlockRead(j, block)), FloorCleared(j, Cleared));
            var d := Deliver(a, j, why, Some(Max(v, FloorNext(Shown(a)))));
            t.jobs == d.jobs && t.next == d.next && t.issued == d.issued && t.tail == a.tail
  {
    var weighed := Step(a, FloorRead(j, true));
    if Shown(a).Some? && v >= Shown(a).value.next {
      assert weighed == SetPc(a, j, ClearFloor(why, v, Shown(a).value, false));
      assert Step(weighed, BlockRead(j, block)) == weighed;
      ClearingDelivers(weighed, a, j, why, v);
    } else if Shown(a).Some? && Shown(a).value.expiresAtBlock.Some? {
      assert weighed == SetPc(a, j, ReadBlock(why, v, Shown(a).value));
      var used := Step(weighed, BlockRead(j, block));
      DeliverReplaces(a, j, ReadBlock(why, v, Shown(a).value), why, Some(Shown(a).value.next));
      DeliveredIsNotReading(weighed, j, why, Some(Shown(a).value.next));
    } else {
      DeliveredIsNotReading(a, j, why, Some(Max(v, FloorNext(Shown(a)))));
    }
  }

  lemma ClearingDelivers(weighed: Account, a: Account, j: nat, why: Why, v: nat)
    requires At(a, j) && Shown(a).Some? && weighed == SetPc(a, j, ClearFloor(why, v, Shown(a).value, false))
    ensures var t := Step(weighed, FloorCleared(j, Cleared));
            var d := Deliver(a, j, why, Some(v));
            t.jobs == d.jobs && t.next == d.next && t.issued == d.issued && t.tail == a.tail
  {
    DeliverReplaces(DropFloor(a, v), j, weighed.jobs[j].pc, why, Some(v));
  }

  /** What is delivered does not depend on what the job was waiting for. */
  lemma DeliverReplaces(a: Account, j: nat, pc: Pc, why: Why, r: Option<nat>)
    requires At(a, j)
    ensures Deliver(SetPc(a, j, pc), j, why, r) == Deliver(a, j, why, r)
  {
    assert forall other :: a.jobs[j := a.jobs[j].(pc := pc)][j := a.jobs[j].(pc := other)]
                        == a.jobs[j := a.jobs[j].(pc := other)];
  }

  lemma DeliveredIsNotReading(a: Account, j: nat, why: Why, r: Option<nat>)
    requires At(a, j)
    ensures At(Deliver(a, j, why, r), j) && !Reading(Deliver(a, j, why, r).jobs[j].pc)
  {
  }

  lemma ReadDelivers(a: Account, j: nat, why: Why, v: nat, block: Option<nat>)
    requires At(a, j) && a.jobs[j].pc == ReadPending(why) && Standing(a, block)
    ensures var t, d := ReadFresh(a, j, v, block), Deliver(a, j, why, Some(Max(v, FloorNext(Shown(a)))));
            t.jobs == d.jobs && t.next == d.next && t.issued == d.issued && t.tail == a.tail
  {
    assert Highest([v]) == v;
    var waiting := a.(seen := Max(a.seen, v));
    var read := Step(Step(a, PendingRead(j, [v])), ChainId(j, true));
    assert read == SetPc(waiting, j, ReadFloor(why, v));
    WeighingDelivers(read, j, why, v, block);
    DeliverReplaces(waiting, j, ReadFloor(why, v), why, Some(Max(v, FloorNext(Shown(a)))));
  }

  /** A transaction that failed before it was broadcast leaves no gap: if the best
      answer is v and the shown floor stands, the next nonce is the larger of the
      two, be it the failed one again; if nobody answers, it is the successor. */
  lemma FailedTransactionsResynchronise(a: Account, j: nat, v: nat, block: Option<nat>, values: seq<int>)
    requires Reached(a) && At(a, j) && a.jobs[j].pc.Body? && Standing(a, block) && Highest(values) < 0
    ensures Resynchronises(a, j, Step(a, BodyFails(j)), v, block, Max(v, FloorNext(Shown(a))),
                           values, a.jobs[j].pc.nonce + 1)
  {
    JobsRunOneAtATimeInOrder(a, j);
    FailedBodyResynchronises(a, j, a.jobs[j].pc.nonce, v, block, values);
  }

  lemma FailedBodyResynchronises(a: Account, j: nat, n: nat, v: nat, block: Option<nat>, values: seq<int>)
    requires At(a, j) && a.jobs[j].pc == Body(n) && a.next == Some(n + 1)
    requires Standing(a, block) && Highest(values) < 0
    ensures Resynchronises(a, j, Step(a, BodyFails(j)), v, block, Max(v, FloorNext(Shown(a))), values, n + 1)
  {
    NextAfterBody(a, j, n);
    EpisodeSettles(a, j, AfterFailure(n), v, block, Max(v, FloorNext(Shown(a))), values, n + 1);
  }

  /** With its nonce consumed the next one is never below the successor. */
  lemma ConsumedNoncesAreNotReturned(a: Account, j: nat, v: nat, block: Option<nat>, values: seq<int>)
    requires Reached(a) && At(a, j) && a.jobs[j].pc.Body? && Standing(a, block) && Highest(values) < 0
    ensures Resynchronises(a, j, Step(a, BodyConsumed(j)), v, block,
                           Max(a.jobs[j].pc.nonce + 1, Max(v, FloorNext(Shown(a)))), values, a.jobs[j].pc.nonce + 1)
  {
    JobsRunOneAtATimeInOrder(a, j);
    ConsumedBodyResynchronises(a, j, a.jobs[j].pc.nonce, v, block, values);
  }

  lemma ConsumedBodyResynchronises(a: Account, j: nat, n: nat, v: nat, block: Option<nat>, values: seq<int>)
    requires At(a, j) && a.jobs[j].pc == Body(n) && a.next == Some(n + 1)
    requires Standing(a, block) && Highest(values) < 0
    ensures Resynchronises(a, j, Step(a, BodyConsumed(j)), v, block, Max(n + 1, Max(v, FloorNext(Shown(a)))),
                           values, n + 1)
  {
    NextAfterBody(a, j, n);
    EpisodeSettles(a, j, AfterConsumed(n, n + 1), v, block, Max(n + 1, Max(v, FloorNext(Shown(a)))), values, n + 1);
  }

  /** A mark that failed at the write still counts in its own process: the cache shows
      its floor, and while that stands the job's nonce is not returned even if the
      function then fails and the readers have not seen it. */
  lemma UnwrittenMarksStillCount(
      a: Account, j: nat, f: Floor, t: Account, v: nat, block: Option<nat>, values: seq<int>)
    requires Reached(a) && At(a, j) && a.jobs[j].pc.Body? && f.next == a.jobs[j].pc.nonce + 1 && !Keeps(a.floor, f.next)
    requires t == Step(a, MarkNotWritten(j, f.expiresAtMs, f.expiresAtBlock)) && Standing(t, block)
    requires Highest(values) < 0
    ensures t.floor == a.floor && At(t, j)
    ensures Resynchronises(t, j, Step(t, BodyFails(j)), v, block, Max(v, f.next), values, f.next)
  {
    JobsRunOneAtATimeInOrder(a, j);
    HiddenFromDisk(a, j, f, t);
    FailedBodyResynchronises(t, j, a.jobs[j].pc.nonce, v, block, values);
  }

  lemma HiddenFromDisk(a: Account, j: nat, f: Floor, t: Account)
    requires At(a, j) && a.jobs[j].pc.Body? && f.next == a.jobs[j].pc.nonce + 1 && !Keeps(a.floor, f.next)
    requires t == Step(a, MarkNotWritten(j, f.expiresAtMs, f.expiresAtBlock))
    ensures t == a.(cache := Unwritten(Some(f))) && Shown(t) == Some(f)
  {
  }

  /** Asking for the pending nonce settles the job, with `answered` for the next
      nonce if the best answer is v, with `unanswered` if nobody answers. */
  predicate Resynchronises(
      a: Account, j: nat, asking: Account, v: nat, block: Option<nat>, answered: nat, values: seq<int>, unanswered: nat)
    requires At(a, j)
  {
    && SettledWith(a, j, ReadFresh(asking, j, v, block), answered)
    && SettledWith(a, j, Step(asking, PendingRead(j, values)), unanswered)
  }

  lemma NextAfterBody(a: Account, j: nat, n: nat)
    requires At(a, j) && a.jobs[j].pc == Body(n) && a.next == Some(n + 1)
    ensures Step(a, BodyFails(j)) == SetPc(a, j, ReadPending(AfterFailure(n)))
    ensures Step(a, BodyConsumed(j)) == SetPc(a, j, ReadPending(AfterConsumed(n, n + 1)))
  {
  }

  /** Job j of a is settled and the next nonce is m; nothing was handed out. */
  predicate SettledWith(a: Account, j: nat, t: Account, m: nat)
    requires At(a, j)
  {
    t.jobs == a.jobs[j := a.jobs[j].(pc := Settled)] && t.next == Some(m) && t.issued == a.issued
  }

  lemma EpisodeSettles(
      a: Account, j: nat, why: Why, v: nat, block: Option<nat>, answered: nat, values: seq<int>, unanswered: nat)
    requires At(a, j) && Standing(a, block) && Highest(values) < 0 && WhyOk(a, why) && !why.Fresh?
    requires var best := Max(v, FloorNext(Shown(a)));
             answered == if why.AfterConsumed? then Max(why.preserved, best) else best
    requires unanswered == why.nonce + 1
    ensures Resynchronises(a, j, SetPc(a, j, ReadPending(why)), v, block, answered, values, unanswered)
  {
    var asking := SetPc(a, j, ReadPending(why));
    ReadDelivers(asking, j, why, v, block);
    DeliverReplaces(a, j, ReadPending(why), why, Some(Max(v, FloorNext(Shown(a)))));
    DeliverReplaces(a, j, ReadPending(why), why, None);
  }

  /** A job that is left alone, from its start to the removal of its map entry. */
  function RunJob(a: Account, j: nat, v: nat, block: Option<nat>): Account {
    var running := ReadFresh(Step(a, Start(j)), j, v, block);
    Step(Step(Step(running, BodyReturns(j)), DelayOver(j)), Cleanup(j))
  }

  /** It is handed the stored next nonce or, when none is stored, the larger of the
      answer and the standing floor; it leaves the successor; and the map entry
      goes with the last job. */
  lemma AnUndisturbedJobRuns(a: Account, j: nat, v: nat, block: Option<nat>)
    requires CanStart(a, j) && Standing(a, block)
    ensures var n := if a.next.Some? then a.next.value else Max(v, FloorNext(Shown(a)));
            var t := RunJob(a, j, v, block);
            && t.jobs == a.jobs[j := a.jobs[j].(pc := Settled)] && t.next == Some(n + 1)
            && t.issued == a.issued + [n] && t.tail == if a.tail == Some(j) then None else a.tail
  {
    var n := if a.next.Some? then a.next.value else Max(v, FloorNext(Shown(a)));
    StartingHandsOut(a, j, v, block);
    RunningEnds(a, ReadFresh(Step(a, Start(j)), j, v, block), j, n);
  }

  lemma RunningEnds(a: Account, running: Account, j: nat, n: nat)
    requires At(a, j) && running.jobs == a.jobs[j := a.jobs[j].(pc := Body(n))] && running.tail == a.tail
    ensures var t := Step(Step(Step(running, BodyReturns(j)), DelayOver(j)), Cleanup(j));
            && t.jobs == a.jobs[j := a.jobs[j].(pc := Settled)] && t.next == running.next
            && t.issued == running.issued && t.tail == if a.tail == Some(j) then None else a.tail
  {
    var pausing := Step(running, BodyReturns(j));
    assert pausing.jobs == a.jobs[j := a.jobs[j].(pc := Delay(n))];
    assert Step(pausing, DelayOver(j)).jobs == a.jobs[j := a.jobs[j].(pc := Settled)];
  }

  lemma StartingHandsOut(a: Account, j: nat, v: nat, block: Option<nat>)
    requires CanStart(a, j) && Standing(a, block)
    ensures var n := if a.next.Some? then a.next.value else Max(v, FloorNext(Shown(a)));
            var t := ReadFresh(Step(a, Start(j)), j, v, block);
            && t.jobs == a.jobs[j := a.jobs[j].(pc := Body(n))] && t.next == Some(n + 1)
            && t.issued == a.issued + [n] && t.tail == a.tail
  {
    if a.next.Some? {
      var issued := Issue(a, j, a.next.value);
      assert Step(a, Start(j)) == issued && issued.jobs[j].pc.Body?;
    } else {
      var asking := SetPc(a, j, ReadPending(Fresh));
      ReadDelivers(asking, j, Fresh, v, block);
      DeliverReplaces(a, j, ReadPending(Fresh), Fresh, Some(Max(v, FloorNext(Shown(a)))));
    }
  }

  /** A job that cannot learn its address is over at once: nothing is asked, handed
      out or changed, and the job after it can start. */
  lemma JobsWithoutAddressMakeWay(a: Account, j: nat)
    requires Reached(a) && CanStart(a, j)
    ensures var t := Step(a, AddressFails(j));
            && SettledAsItWas(a, j, t)
            && (At(a, j + 1) && a.jobs[j + 1].pc.Queued? ==> CanStart(t, j + 1))
  {
    ReachedIsInv(a);
  }

  predicate SettledAsItWas(a: Account, j: nat, t: Account)
    requires At(a, j)
  {
    t == a.(jobs := t.jobs) && t.jobs == a.jobs[j := a.jobs[j].(pc := Settled)]
  }
}
