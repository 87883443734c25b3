/** Single calls of the limiter's `run`: what each event does to the call it is for
    and to the others, and that no call is stuck. */
module ProbeCalls {
  import opened Wrappers
  import opened Limiter

  // ------------------------------------------------- what happens to the others

  /** Nothing has happened to a call, or its turn has come. */
  predicate Served(before: Run, after: Run) {
    after == before || (!before.settled && after == before.(settled := true, granted := true))
  }

  ghost predicate AllServed(before: seq<Run>, after: seq<Run>) {
    |before| == |after| && forall i :: 0 <= i < |before| ==> Served(before[i], after[i])
  }

  /** All calls but number id. */
  ghost predicate OthersServed(before: seq<Run>, after: seq<Run>, id: nat) {
    |before| <= |after| && forall i :: 0 <= i < |before| && i != id ==> Served(before[i], after[i])
  }

  lemma {:induction false} DrainServes(cfg: Config, s: State)
    requires Wired(s)
    ensures AllServed(s.runs, Drain(cfg, s).runs)
    decreases |s.waiters|
  {
    if CanGrant(cfg, s) {
      DrainServes(cfg, Grant(s));
      GrantServes(s);
    }
  }

  lemma GrantServes(s: State)
    requires Wired(s) && s.waiters != []
    ensures AllServed(s.runs, Grant(s).runs)
  {
  }

  lemma DrainAfter(cfg: Config, s: State, id: nat, r: Run, u: State)
    requires id < |s.runs| && u.runs == s.runs[id := r] && Wired(u) && r.settled
    ensures var t := Drain(cfg, u);
            OthersServed(s.runs, t.runs, id) && id < |t.runs| && t.runs[id] == r
  {
    DrainServes(cfg, u);
  }

  /** A permit comes back once, and with it the others' turn may come. */
  lemma ReleaseMoves(cfg: Config, s: State, id: nat)
    requires Wired(s) && id < |s.runs| && s.runs[id].settled
    ensures var t := ReleasePermit(cfg, s, id);
            OthersServed(s.runs, t.runs, id) && id < |t.runs| && t.runs[id] == s.runs[id].(permitReleased := true)
  {
    if !s.runs[id].permitReleased {
      var r := s.runs[id].(permitReleased := true);
      DrainAfter(cfg, s, id, r, s.(
        active := AtLeastZero(s.active - 1), runs := s.runs[id := r], releases := s.releases + [id]));
    }
  }

  lemma OthersServedTwice(before: seq<Run>, between: seq<Run>, after: seq<Run>, id: nat)
    requires |before| == |between| && OthersServed(before, between, id) && OthersServed(between, after, id)
    requires forall i :: 0 <= i < |before| && i != id && before[i].settled ==> before[i] == between[i]
    ensures OthersServed(before, after, id)
  {
  }

  lemma AbandonMoves(cfg: Config, s: State, id: nat)
    requires Wired(s) && id < |s.runs| && s.runs[id].settled
    ensures var t, r := Abandon(cfg, s, id), s.runs[id];
            && OthersServed(s.runs, t.runs, id) && id < |t.runs|
            && t.runs[id] == if r.operationSettled || r.hardCapReleased then r
                             else r.(hardCapReleased := true, permitReleased := true)
  {
    var r := s.runs[id];
    if !r.operationSettled && !r.hardCapReleased {
      var u := s.(abandonedUnsettled := s.abandonedUnsettled + 1, runs := s.runs[id := r.(hardCapReleased := true)]);
      ReleaseMoves(cfg, u, id);
      OthersServedTwice(s.runs, u.runs, ReleasePermit(cfg, u, id).runs, id);
    }
  }

  lemma SettleMoves(cfg: Config, s: State, id: nat)
    requires Wired(s) && id < |s.runs| && s.runs[id].settled
    ensures var t := SettleOperation(cfg, s, id);
            && OthersServed(s.runs, t.runs, id) && id < |t.runs|
            && t.runs[id] == s.runs[id].(operationSettled := true, permitReleased := true)
  {
    var marked := s.(runs := s.runs[id := s.runs[id].(operationSettled := true)]);
    var u := ReleasePermit(cfg, marked, id);
    ReleaseMoves(cfg, marked, id);
    OthersServedTwice(s.runs, marked.runs, u.runs, id);
    DrainServes(cfg, u.(abandonedUnsettled := AtLeastZero(u.abandonedUnsettled - 1)));
  }

  lemma AbortMoves(cfg: Config, s: State, id: nat)
    requires Inv(cfg, s) && id < |s.runs|
    ensures var t, r := Step(cfg, s, Abort(id)), s.runs[id];
            && OthersServed(s.runs, t.runs, id) && id < |t.runs| == |s.runs|
            && t.runs[id] == if r.aborted then r
                             else if Underway(r)
                             then r.(aborted := true, hardCapReleased := true, permitReleased := true)
                             else r.(aborted := true, settled := true)
  {
    var r := s.runs[id].(aborted := true);
    if !s.runs[id].aborted {
      var t := s.(runs := s.runs[id := r]);
      if !r.settled {
        var u := t.(runs := t.runs[id := r.(settled := true)], waiters := Without(s.waiters, id));
        assert u.runs == s.runs[id := r.(settled := true)];
        DrainAfter(cfg, s, id, r.(settled := true), u);
      } else if r.started {
        AbandonMoves(cfg, t, id);
        OthersServedTwice(s.runs, t.runs, Abandon(cfg, t, id).runs, id);
      }
    }
  }

  // ------------------------------------------------------------- own endings

  /** The states of all runs. */
  ghost predicate Reached(cfg: Config, s: State) { exists events :: Exec(cfg, events) == s }

  lemma ReachedIsInv(cfg: Config, s: State)
    requires Accepted(cfg) && Reached(cfg, s)
    ensures Inv(cfg, s)
  {
    var events :| Exec(cfg, events) == s;
    Reachable(cfg, events);
  }

  lemma ReachedStep(cfg: Config, s: State, e: Event)
    requires Accepted(cfg) && Reached(cfg, s)
    ensures Wired(s) && Reached(cfg, Step(cfg, s, e))
  {
    ReachedIsInv(cfg, s);
    var events :| Exec(cfg, events) == s;
    ExecSnoc(cfg, events, e);
  }

  /** The operation has settled, on time or long after it was abandoned: the call is
      over, holds no permit and counts as abandoned no longer, its permit has been
      given back exactly once, and for the others nothing changes but that their
      turn may come. */
  lemma SettlingEndsTheCall(cfg: Config, s: State, id: nat)
    requires Accepted(cfg) && Reached(cfg, s) && id < |s.runs| && Underway(s.runs[id])
    ensures Wired(s)
    ensures var t := Step(cfg, s, Settle(id));
            && OthersServed(s.runs, t.runs, id) && id < |t.runs|
            && Over(t.runs[id]) && t.runs[id].operationSettled
            && !Holds(t.runs[id]) && !Lingers(t.runs[id]) && !Underway(t.runs[id])
            && id in t.releases && Distinct(t.releases)
  {
    ReachedIsInv(cfg, s);
    StepKeepsInv(cfg, s, Settle(id));
    SettleMoves(cfg, s, id);
  }

  /** A call whose turn has come starts its operation, unless it was aborted in the
      meantime: then it never starts, and its permit is given back exactly once. */
  lemma GrantedCallsStartOrLeave(cfg: Config, s: State, id: nat)
    requires Accepted(cfg) && Reached(cfg, s) && id < |s.runs| && Holds(s.runs[id]) && !s.runs[id].started
    ensures Wired(s)
    ensures var t := Step(cfg, s, Resume(id));
            && OthersServed(s.runs, t.runs, id) && id < |t.runs|
            && if s.runs[id].aborted
               then
                 && Over(t.runs[id]) && !t.runs[id].started && !Holds(t.runs[id])
                 && id in t.releases && Distinct(t.releases)
               else Underway(t.runs[id]) && Holds(t.runs[id]) && t.releases == s.releases
  {
    ReachedIsInv(cfg, s);
    StepKeepsInv(cfg, s, Resume(id));
    ReleaseMoves(cfg, s, id);
  }

  /** A call that is aborted while it waits is over without ever having been granted
      a permit, and is in nobody's way: the others wait on, or their turn has come. */
  lemma AbortedWaitersLeave(cfg: Config, s: State, id: nat)
    requires Accepted(cfg) && Reached(cfg, s) && id in s.waiters
    ensures Wired(s)
    ensures var t := Step(cfg, s, Abort(id));
            && OthersServed(s.runs, t.runs, id) && id < |t.runs| == |s.runs|
            && Over(t.runs[id]) && t.runs[id].aborted && id !in t.waiters && id !in t.grants
            && (forall w: nat :: w in s.waiters && w != id ==> w in t.waiters || w in t.grants)
  {
    ReachedIsInv(cfg, s);
    StepKeepsInv(cfg, s, Abort(id));
    IsWaiting(cfg, s, id);
    AbortMoves(cfg, s, id);
    WaitersWaitOrAreGranted(s, Step(cfg, s, Abort(id)), id);
  }

  lemma IsWaiting(cfg: Config, s: State, id: nat)
    requires Inv(cfg, s) && id in s.waiters
    ensures id < |s.runs| && !s.runs[id].settled && !s.runs[id].granted && !s.runs[id].started
  {
    assert RunOk(s.runs[id]);
  }

  lemma WaitersWaitOrAreGranted(s: State, t: State, id: nat)
    requires Queued(s.runs, s.grants, s.waiters) && Queued(t.runs, t.grants, t.waiters)
    requires id < |t.runs| == |s.runs| && OthersServed(s.runs, t.runs, id)
    requires t.runs[id].settled && !t.runs[id].granted
    ensures id !in t.waiters && id !in t.grants
    ensures forall w: nat :: w in s.waiters && w != id ==> w in t.waiters || w in t.grants
  {
  }

  /** A call whose signal is aborted already throws at once: nothing else changes. */
  lemma AbortedCallsDoNotEnter(cfg: Config, s: State)
    requires Accepted(cfg) && Reached(cfg, s)
    ensures Wired(s)
    ensures var t := Step(cfg, s, Enter(true));
            && t == s.(runs := t.runs) && |t.runs| == |s.runs| + 1 && t.runs[..|s.runs|] == s.runs
            && Over(t.runs[|s.runs|]) && !t.runs[|s.runs|].granted
  {
    ReachedIsInv(cfg, s);
    StepKeepsInv(cfg, s, Enter(true));
  }

  /** Any other call waits behind those already waiting, or has its turn at once
      because nobody waits. */
  lemma OtherCallsEnter(cfg: Config, s: State)
    requires Accepted(cfg) && Reached(cfg, s)
    ensures Wired(s)
    ensures var t := Step(cfg, s, Enter(false));
            && |t.runs| == |s.runs| + 1 && AllServed(s.runs + [NEW_RUN], t.runs)
            && (|s.runs| in t.waiters || (|s.runs| in t.grants && t.waiters == []))
  {
    ReachedIsInv(cfg, s);
    StepKeepsInv(cfg, s, Enter(false));
    var t := Step(cfg, s, Enter(false));
    DrainServes(cfg, s.(runs := s.runs + [NEW_RUN], waiters := s.waiters + [|s.runs|]));
    GrantsPrecedeWaiters(t.grants, t.waiters);
    HeadIsMember(t.waiters);
  }

  /** A run from a state on. */
  function ExecFrom(cfg: Config, s: State, more: seq<Event>): State
    requires Wired(s)
    decreases more
  {
    if more == [] then s else ExecFrom(cfg, Step(cfg, s, more[0]), more[1..])
  }

  /** Whatever happens later, a call that is over stays as it is: one that was turned
      away is never granted a permit, and none is given back twice. */
  lemma {:induction false} CallsThatAreOverStayOver(cfg: Config, s: State, more: seq<Event>, id: nat)
    requires Accepted(cfg) && Reached(cfg, s) && id < |s.runs| && Over(s.runs[id])
    ensures Wired(s) && id < |ExecFrom(cfg, s, more).runs|
    ensures var after := ExecFrom(cfg, s, more).runs[id]; after == s.runs[id].(aborted := after.aborted)
    decreases more
  {
    ReachedIsInv(cfg, s);
    if more != [] {
      ReachedStep(cfg, s, more[0]);
      StepLeavesOver(cfg, s, more[0], id);
      CallsThatAreOverStayOver(cfg, Step(cfg, s, more[0]), more[1..], id);
    }
  }

  lemma StepLeavesOver(cfg: Config, s: State, e: Event, id: nat)
    requires Inv(cfg, s) && id < |s.runs| && Over(s.runs[id])
    ensures id < |Step(cfg, s, e).runs|
    ensures var after := Step(cfg, s, e).runs[id]; after == s.runs[id].(aborted := after.aborted)
  {
    match e
    case Enter(aborted) =>
      if !aborted {
        DrainServes(cfg, s.(runs := s.runs + [NEW_RUN], waiters := s.waiters + [|s.runs|]));
      }
    case Abort(i) => if i < |s.runs| { AbortMoves(cfg, s, i); }
    case Resume(i) => if i < |s.runs| && Holds(s.runs[i]) { ReleaseMoves(cfg, s, i); }
    case HardCap(i) => if i < |s.runs| && s.runs[i].started { AbandonMoves(cfg, s, i); }
    case Settle(i) => if i < |s.runs| && Underway(s.runs[i]) { SettleMoves(cfg, s, i); }
  }

  // --------------------------------------------------------- nobody is stuck

  /** How much is left of a call: its turn, its start, its operation. */
  function Todo(r: Run): nat {
    if Over(r) then 0 else if !r.settled then 3 else if r.started then 1 else 2
  }

  function TodoAll(runs: seq<Run>): nat {
    if runs == [] then 0 else TodoAll(runs[..|runs| - 1]) + Todo(runs[|runs| - 1])
  }

  lemma {:induction false} TodoShrinks(before: seq<Run>, after: seq<Run>, id: nat)
    requires |before| == |after| && OthersServed(before, after, id)
    ensures TodoAll(after) + (if id < |before| then Todo(before[id]) else 0)
         <= TodoAll(before) + (if id < |before| then Todo(after[id]) else 0)
  {
    if before != [] {
      TodoShrinks(before[..|before| - 1], after[..|after| - 1], id);
    }
  }

  ghost predicate AllOver(runs: seq<Run>) { forall i :: 0 <= i < |runs| ==> Over(runs[i]) }

  /** The call can be moved on, by its operation or its continuation. */
  predicate CanMove(r: Run) { Underway(r) || (Holds(r) && !r.started) }

  /** No call waits for ever because of the limiter: from every reachable state, if
      the operations that have been started settle and the continuations run, every
      call comes to an end, the ones still waiting included. */
  lemma {:induction false} EveryCallCanEnd(cfg: Config, s: State) returns (more: seq<Event>)
    requires Accepted(cfg) && Reached(cfg, s)
    ensures forall i :: 0 <= i < |more| ==> more[i].Resume? || more[i].Settle?
    ensures Wired(s) && |ExecFrom(cfg, s, more).runs| == |s.runs| && AllOver(ExecFrom(cfg, s, more).runs)
    decreases TodoAll(s.runs)
  {
    ReachedIsInv(cfg, s);
    if id: nat :| id < |s.runs| && CanMove(s.runs[id]) {
      var e := if Underway(s.runs[id]) then Settle(id) else Resume(id);
      CallMovesOn(cfg, s, id, e);
      var rest := EveryCallCanEnd(cfg, Step(cfg, s, e));
      more := [e] + rest;
      assert more[1..] == rest;
    } else {
      more := [];
      NothingIsLeft(cfg, s);
    }
  }

  lemma CallMovesOn(cfg: Config, s: State, id: nat, e: Event)
    requires Accepted(cfg) && Reached(cfg, s) && id < |s.runs| && CanMove(s.runs[id])
    requires e == if Underway(s.runs[id]) then Settle(id) else Resume(id)
    ensures Wired(s) && Reached(cfg, Step(cfg, s, e)) && |Step(cfg, s, e).runs| == |s.runs|
    ensures TodoAll(Step(cfg, s, e).runs) < TodoAll(s.runs)
  {
    ReachedStep(cfg, s, e);
    ReachedIsInv(cfg, s);
    if e.Settle? {
      SettlingEndsTheCall(cfg, s, id);
    } else {
      GrantedCallsStartOrLeave(cfg, s, id);
    }
    TodoShrinks(s.runs, Step(cfg, s, e).runs, id);
  }

  lemma NothingIsLeft(cfg: Config, s: State)
    requires Inv(cfg, s) && forall i :: 0 <= i < |s.runs| ==> !CanMove(s.runs[i])
    ensures AllOver(s.runs)
  {
    forall i | 0 <= i < |s.runs| ensures !Holds(s.runs[i]) && !Lingers(s.runs[i]) {
      assert RunOk(s.runs[i]) && !CanMove(s.runs[i]);
    }
    assert Where(s.runs, Holds) == {} && Where(s.runs, Lingers) == {};
    assert s.waiters == [];
    forall i | 0 <= i < |s.runs| ensures Over(s.runs[i]) {
      assert i !in s.waiters && RunOk(s.runs[i]) && !CanMove(s.runs[i]);
    }
  }
}
