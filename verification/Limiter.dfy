/** The route-probe limiter: a semaphore whose permits can be taken back from
    operations that are still running (hard hold cap or caller abort), with a
    second budget for those abandoned operations.

    Every synchronous stretch of code between two awaits is one step. A call of
    `run` is identified by its position in entry order, so "first in, first out"
    means that the grants, followed by the queue, are increasing.  */
module Limiter {
  import opened Wrappers

  datatype Config = Config(maxConcurrent: int, maxAbandoned: int)

  ghost predicate Accepted(cfg: Config) {
    cfg.maxConcurrent >= 1 && cfg.maxAbandoned >= 1
  }

  /** The variables captured by the closures of one call of `run` and of the
      `acquire` inside it. `settled` is the waiter's flag, `granted` says that it
      was settled by `resolve`, `started` that the operation was launched. */
  datatype Run = Run(
    settled: bool, granted: bool, aborted: bool, started: bool,
    permitReleased: bool, hardCapReleased: bool, operationSettled: bool)

  predicate Holds(r: Run) { r.granted && !r.permitReleased }

  predicate Lingers(r: Run) { r.hardCapReleased && !r.operationSettled }

  /** The operation has been launched and its promise has not settled. */
  predicate Underway(r: Run) { r.started && !r.operationSettled }

  /** Nothing more can happen to this run. */
  predicate Over(r: Run) {
    && r.settled
    && (r.granted ==> if r.started then r.operationSettled else r.permitReleased)
  }

  /** `grants` and `releases` are histories: the order in which waiters were
      resolved, and the order in which permits were given back. */
  datatype State = State(
    active: int, abandonedUnsettled: int, waiters: seq<nat>, runs: seq<Run>,
    grants: seq<nat>, releases: seq<nat>)

  datatype Event =
    | Enter(aborted: bool)   // run() is called; the signal may already be aborted
    | Abort(id: nat)         // the caller's signal fires
    | Resume(id: nat)        // the continuation after `await this.acquire`
    | HardCap(id: nat)       // the permit-hold timer fires
    | Settle(id: nat)        // the operation's promise resolves or rejects

  const INITIAL := State(0, 0, [], [], [], [])

  predicate Wired(s: State) {
    forall i :: 0 <= i < |s.waiters| ==> s.waiters[i] < |s.runs|
  }

  // ------------------------------------------------------------------ steps

  function AtLeastZero(n: int): int { if n < 0 then 0 else n }

  function Grant(s: State): (t: State)
    requires Wired(s) && s.waiters != []
    ensures Wired(t) && |t.runs| == |s.runs|
  {
    var w := s.waiters[0];
    var r := s.runs[w];
    var taken := s.(active := s.active + 1, waiters := s.waiters[1..]);
    if r.settled then taken
    else taken.(runs := s.runs[w := r.(settled := true, granted := true)], grants := s.grants + [w])
  }

  predicate CanGrant(cfg: Config, s: State) {
    s.active < cfg.maxConcurrent && s.abandonedUnsettled < cfg.maxAbandoned && s.waiters != []
  }

  function Drain(cfg: Config, s: State): (t: State)
    requires Wired(s)
    ensures Wired(t) && |t.runs| == |s.runs|
    ensures forall i :: 0 <= i < |s.runs| ==> t.runs[i].hardCapReleased == s.runs[i].hardCapReleased
    decreases |s.waiters|
  {
    if CanGrant(cfg, s) then Drain(cfg, Grant(s)) else s
  }

  function ReleasePermit(cfg: Config, s: State, id: nat): (t: State)
    requires Wired(s) && id < |s.runs|
    ensures Wired(t) && |t.runs| == |s.runs|
  {
    if s.runs[id].permitReleased then s
    else Drain(cfg, s.(
      active := AtLeastZero(s.active - 1),
      runs := s.runs[id := s.runs[id].(permitReleased := true)],
      releases := s.releases + [id]))
  }

  function Abandon(cfg: Config, s: State, id: nat): (t: State)
    requires Wired(s) && id < |s.runs|
    ensures Wired(t) && |t.runs| == |s.runs|
  {
    var r := s.runs[id];
    if r.operationSettled || r.hardCapReleased then s
    else ReleasePermit(cfg, s.(
      abandonedUnsettled := s.abandonedUnsettled + 1,
      runs := s.runs[id := r.(hardCapReleased := true)]), id)
  }

  function SettleOperation(cfg: Config, s: State, id: nat): (t: State)
    requires Wired(s) && id < |s.runs|
    ensures Wired(t) && |t.runs| == |s.runs|
  {
    var u := ReleasePermit(cfg, s.(runs := s.runs[id := s.runs[id].(operationSettled := true)]), id);
    if !u.runs[id].hardCapReleased then u
    else Drain(cfg, u.(abandonedUnsettled := AtLeastZero(u.abandonedUnsettled - 1)))
  }

  /** `splice(indexOf(x), 1)`: the queue without one waiter. */
  function Without(s: seq<nat>, x: nat): (t: seq<nat>)
    ensures forall y: nat :: y in t <==> y in s && y != x
    ensures forall k :: 0 <= k < |t| ==> t[k] in s
  {
    if s == [] then [] else (if s[0] == x then [] else [s[0]]) + Without(s[1..], x)
  }

  const NEW_RUN := Run(false, false, false, false, false, false, false)

  function Step(cfg: Config, s: State, e: Event): (t: State)
    requires Wired(s)
    ensures Wired(t)
  {
    match e
    case Enter(aborted) =>
      if aborted then s.(runs := s.runs + [NEW_RUN.(settled := true, aborted := true)])
      else Drain(cfg, s.(runs := s.runs + [NEW_RUN], waiters := s.waiters + [|s.runs|]))
    case Abort(id) =>
      if id >= |s.runs| || s.runs[id].aborted then s
      else
        var r := s.runs[id].(aborted := true);
        var t := s.(runs := s.runs[id := r]);
        if !r.settled then
          Drain(cfg, t.(runs := t.runs[id := r.(settled := true)], waiters := Without(s.waiters, id)))
        else if r.started then Abandon(cfg, t, id)
        else t
    case Resume(id) =>
      if id >= |s.runs| || !Holds(s.runs[id]) || s.runs[id].started then s
      else if s.runs[id].aborted then ReleasePermit(cfg, s, id)
      else s.(runs := s.runs[id := s.runs[id].(started := true)])
    case HardCap(id) =>
      if id >= |s.runs| || !s.runs[id].started then s else Abandon(cfg, s, id)
    case Settle(id) =>
      if id >= |s.runs| || !Underway(s.runs[id]) then s else SettleOperation(cfg, s, id)
  }

  function Exec(cfg: Config, events: seq<Event>): (s: State)
    ensures Wired(s)
  {
    if events == [] then INITIAL
    else Step(cfg, Exec(cfg, events[..|events| - 1]), events[|events| - 1])
  }

  // -------------------------------------------------------------- invariant

  ghost function Where(runs: seq<Run>, p: Run -> bool): set<nat> {
    set i: nat | i < |runs| && p(runs[i])
  }

  ghost predicate Increasing(s: seq<nat>) {
    forall i, j :: 0 <= i < j < |s| ==> s[i] < s[j]
  }

  ghost predicate Distinct(s: seq<nat>) {
    forall i, j :: 0 <= i < j < |s| ==> s[i] != s[j]
  }

  ghost predicate RunOk(r: Run) {
    && (r.granted || r.aborted ==> r.settled)
    && (r.started ==> r.granted)
    && (r.permitReleased ==> r.granted && (r.started ==> r.hardCapReleased || r.operationSettled))
    && (r.hardCapReleased ==> r.started && r.permitReleased)
    && (r.operationSettled ==> r.started && r.permitReleased)
  }

  ghost predicate Queued(runs: seq<Run>, grants: seq<nat>, waiters: seq<nat>) {
    && Increasing(grants + waiters)
    && (forall g: nat :: g in grants <==> g < |runs| && runs[g].granted)
    && (forall w: nat :: w in waiters <==> w < |runs| && !runs[w].settled)
  }

  ghost predicate Counted(runs: seq<Run>, active: int, abandonedUnsettled: int) {
    active == |Where(runs, Holds)| && abandonedUnsettled == |Where(runs, Lingers)|
  }

  ghost predicate Accounted(s: State) {
    && Counted(s.runs, s.active, s.abandonedUnsettled)
    && Distinct(s.releases)
    && (forall i: nat :: i in s.releases <==> i < |s.runs| && s.runs[i].permitReleased)
    && |s.grants| == s.active + |s.releases|
  }

  ghost predicate Bounded(cfg: Config, s: State) {
    && s.active <= cfg.maxConcurrent
    && s.active + s.abandonedUnsettled <= cfg.maxConcurrent + cfg.maxAbandoned - 1
  }

  /** What holds even in the middle of a step. */
  ghost predicate Core(cfg: Config, s: State) {
    && Accepted(cfg) && Wired(s)
    && (forall i :: 0 <= i < |s.runs| ==> RunOk(s.runs[i]))
    && Queued(s.runs, s.grants, s.waiters) && Accounted(s) && Bounded(cfg, s)
  }

  /** No lost wakeup: somebody waits only while a budget is exhausted. */
  ghost predicate Saturated(cfg: Config, s: State) {
    s.waiters != [] ==> s.active == cfg.maxConcurrent || s.abandonedUnsettled >= cfg.maxAbandoned
  }

  ghost predicate Inv(cfg: Config, s: State) { Core(cfg, s) && Saturated(cfg, s) }

  function One(b: bool): int { if b then 1 else 0 }

  lemma SizeWithout(a: set<nat>, i: nat)
    ensures |a| == |a - {i}| + One(i in a)
  {
    if i in a {
      assert a == (a - {i}) + {i};
    } else {
      assert a == a - {i};
    }
  }

  lemma CountUpdate(runs: seq<Run>, p: Run -> bool, i: nat, r: Run)
    requires i < |runs|
    ensures |Where(runs[i := r], p)| == |Where(runs, p)| - One(p(runs[i])) + One(p(r))
  {
    var before, after := Where(runs, p), Where(runs[i := r], p);
    assert before - {i} == after - {i};
    SizeWithout(before, i);
    SizeWithout(after, i);
  }

  /** Changing one run moves the two counters by what that run stands for. */
  lemma CountedAfter(runs: seq<Run>, active: int, abandonedUnsettled: int, i: nat, r: Run)
    requires i < |runs| && Counted(runs, active, abandonedUnsettled)
    ensures Counted(runs[i := r],
      active - One(Holds(runs[i])) + One(Holds(r)),
      abandonedUnsettled - One(Lingers(runs[i])) + One(Lingers(r)))
    ensures Holds(runs[i]) ==> active >= 1
    ensures Lingers(runs[i]) ==> abandonedUnsettled >= 1
  {
    CountUpdate(runs, Holds, i, r);
    CountUpdate(runs, Lingers, i, r);
    SizeWithout(Where(runs, Holds), i);
    SizeWithout(Where(runs, Lingers), i);
  }

  /** The queue is about the waiters' flags only. */
  lemma QueuedAfter(runs: seq<Run>, grants: seq<nat>, waiters: seq<nat>, i: nat, r: Run)
    requires i < |runs| && Queued(runs, grants, waiters)
    requires r.granted == runs[i].granted && r.settled == runs[i].settled
    ensures Queued(runs[i := r], grants, waiters)
  {
  }

  lemma CountAppend(runs: seq<Run>, p: Run -> bool, r: Run)
    requires !p(r)
    ensures Where(runs + [r], p) == Where(runs, p)
  {
  }

  lemma GrantKeepsQueued(runs: seq<Run>, grants: seq<nat>, waiters: seq<nat>, w: nat, r: Run)
    requires Queued(runs, grants, waiters) && waiters != [] && w == waiters[0] < |runs|
    requires r.settled && r.granted
    ensures Queued(runs[w := r], grants + [w], waiters[1..])
  {
    var all := grants + waiters;
    assert waiters == [w] + waiters[1..];
    assert (grants + [w]) + waiters[1..] == all;
    forall k | 0 <= k < |waiters[1..]| ensures waiters[1..][k] != w {
      assert all[|grants|] < all[|grants| + 1 + k];
    }
    assert forall y: nat :: y in waiters <==> y == w || y in waiters[1..];
    assert w in waiters;
  }

  lemma GrantKeepsCore(cfg: Config, s: State)
    requires Core(cfg, s) && CanGrant(cfg, s)
    ensures Core(cfg, Grant(s))
  {
    var w := s.waiters[0];
    assert w in s.waiters;
    var r := s.runs[w].(settled := true, granted := true);
    GrantKeepsQueued(s.runs, s.grants, s.waiters, w, r);
    CountedAfter(s.runs, s.active, s.abandonedUnsettled, w, r);
  }

  lemma {:induction false} DrainRestoresInv(cfg: Config, s: State)
    requires Core(cfg, s)
    ensures Inv(cfg, Drain(cfg, s))
    decreases |s.waiters|
  {
    if CanGrant(cfg, s) {
      GrantKeepsCore(cfg, s);
      DrainRestoresInv(cfg, Grant(s));
    }
  }

  /** Giving a held permit back keeps the accounts straight, whether the run
      was aborted before it started, has settled, or is being abandoned. */
  lemma ReleaseKeepsInv(cfg: Config, s: State, id: nat, r: Run, u: State)
    requires Core(cfg, s) && id < |s.runs| && Holds(s.runs[id])
    requires r.permitReleased && r.settled && r.granted
    requires r.started <==> r.hardCapReleased || r.operationSettled
    requires r.hardCapReleased ==> !r.operationSettled
    requires u == s.(active := AtLeastZero(s.active - 1),
                     abandonedUnsettled := s.abandonedUnsettled + (if r.hardCapReleased then 1 else 0),
                     runs := s.runs[id := r], releases := s.releases + [id])
    ensures s.active >= 1 && Inv(cfg, Drain(cfg, u))
  {
    QueuedAfter(s.runs, s.grants, s.waiters, id, r);
    CountedAfter(s.runs, s.active, s.abandonedUnsettled, id, r);
    DrainRestoresInv(cfg, u);
  }

  lemma AbandonKeepsInv(cfg: Config, s: State, id: nat)
    requires Inv(cfg, s) && id < |s.runs| && s.runs[id].started
    ensures Inv(cfg, Abandon(cfg, s, id))
  {
    var r := s.runs[id];
    if !r.operationSettled && !r.hardCapReleased {
      var r1 := r.(hardCapReleased := true);
      assert s.runs[id := r1][id := r1.(permitReleased := true)] == s.runs[id := r1.(permitReleased := true)];
      ReleaseKeepsInv(cfg, s, id, r1.(permitReleased := true), s.(
        active := AtLeastZero(s.active - 1), abandonedUnsettled := s.abandonedUnsettled + 1,
        runs := s.runs[id := r1.(permitReleased := true)], releases := s.releases + [id]));
    }
  }

  lemma SettleKeepsInv(cfg: Config, s: State, id: nat)
    requires Inv(cfg, s) && id < |s.runs| && Underway(s.runs[id])
    ensures Lingers(s.runs[id]) ==> s.abandonedUnsettled >= 1
    ensures Inv(cfg, SettleOperation(cfg, s, id))
  {
    var r := s.runs[id].(operationSettled := true);
    if r.hardCapReleased {
      QueuedAfter(s.runs, s.grants, s.waiters, id, r);
      CountedAfter(s.runs, s.active, s.abandonedUnsettled, id, r);
      DrainRestoresInv(cfg, s.(runs := s.runs[id := r], abandonedUnsettled := s.abandonedUnsettled - 1));
    } else {
      assert s.runs[id := r][id := r.(permitReleased := true)] == s.runs[id := r.(permitReleased := true)];
      ReleaseKeepsInv(cfg, s, id, r.(permitReleased := true), s.(
        active := AtLeastZero(s.active - 1),
        runs := s.runs[id := r.(permitReleased := true)], releases := s.releases + [id]));
    }
  }

  lemma EnterKeepsInv(cfg: Config, s: State, aborted: bool)
    requires Inv(cfg, s)
    ensures Inv(cfg, Step(cfg, s, Enter(aborted)))
  {
    var r := if aborted then NEW_RUN.(settled := true, aborted := true) else NEW_RUN;
    CountAppend(s.runs, Holds, r);
    CountAppend(s.runs, Lingers, r);
    if !aborted {
      var u := s.(runs := s.runs + [r], waiters := s.waiters + [|s.runs|]);
      assert u.grants + u.waiters == (s.grants + s.waiters) + [|s.runs|];
      assert forall k :: 0 <= k < |s.grants + s.waiters| ==> (s.grants + s.waiters)[k] in s.grants + s.waiters;
      DrainRestoresInv(cfg, u);
    }
  }

  lemma {:induction false} WithoutKeepsOrder(a: seq<nat>, s: seq<nat>, x: nat)
    requires Increasing(a + s)
    ensures Increasing(a + Without(s, x))
    decreases s
  {
    if s != [] {
      assert (a + [s[0]]) + s[1..] == a + s;
      if s[0] == x {
        var t := a + s;
        assert forall k :: 0 <= k < |a + s[1..]| ==> (a + s[1..])[k] == t[if k < |a| then k else k + 1];
        assert Without(s, x) == Without(s[1..], x);
        WithoutKeepsOrder(a, s[1..], x);
      } else {
        WithoutKeepsOrder(a + [s[0]], s[1..], x);
        assert (a + [s[0]]) + Without(s[1..], x) == a + Without(s, x);
      }
    }
  }

  lemma AbortKeepsInv(cfg: Config, s: State, id: nat)
    requires Inv(cfg, s) && id < |s.runs| && !s.runs[id].aborted
    ensures Inv(cfg, Step(cfg, s, Abort(id)))
  {
    var r := s.runs[id].(aborted := true);
    if !r.settled {
      assert s.runs[id := r][id := r.(settled := true)] == s.runs[id := r.(settled := true)];
      LeavingKeepsInv(cfg, s, id, r.(settled := true));
    } else {
      MarkingKeepsInv(cfg, s, id, r);
      if r.started {
        AbandonKeepsInv(cfg, s.(runs := s.runs[id := r]), id);
      }
    }
  }

  /** Setting `aborted` or `started` alone. */
  lemma MarkingKeepsInv(cfg: Config, s: State, id: nat, r: Run)
    requires Inv(cfg, s) && id < |s.runs| && RunOk(r)
    requires r == s.runs[id].(aborted := r.aborted, started := r.started)
    ensures Inv(cfg, s.(runs := s.runs[id := r]))
  {
    QueuedAfter(s.runs, s.grants, s.waiters, id, r);
    CountedAfter(s.runs, s.active, s.abandonedUnsettled, id, r);
  }

  /** A waiter that is told to give up leaves the queue. */
  lemma LeavingKeepsInv(cfg: Config, s: State, id: nat, r: Run)
    requires Inv(cfg, s) && id < |s.runs| && !s.runs[id].settled
    requires r == s.runs[id].(aborted := true, settled := true)
    ensures Inv(cfg, Drain(cfg, s.(runs := s.runs[id := r], waiters := Without(s.waiters, id))))
  {
    WithoutKeepsOrder(s.grants, s.waiters, id);
    CountedAfter(s.runs, s.active, s.abandonedUnsettled, id, r);
    DrainRestoresInv(cfg, s.(runs := s.runs[id := r], waiters := Without(s.waiters, id)));
  }

  lemma ResumeKeepsInv(cfg: Config, s: State, id: nat)
    requires Inv(cfg, s)
    ensures Inv(cfg, Step(cfg, s, Resume(id)))
  {
    if id < |s.runs| && Holds(s.runs[id]) && !s.runs[id].started {
      var r := s.runs[id];
      if r.aborted {
        ReleaseKeepsInv(cfg, s, id, r.(permitReleased := true), s.(
          active := AtLeastZero(s.active - 1), runs := s.runs[id := r.(permitReleased := true)],
          releases := s.releases + [id]));
      } else {
        MarkingKeepsInv(cfg, s, id, r.(started := true));
      }
    }
  }

  lemma StepKeepsInv(cfg: Config, s: State, e: Event)
    requires Inv(cfg, s)
    ensures Inv(cfg, Step(cfg, s, e))
  {
    match e
    case Enter(aborted) => EnterKeepsInv(cfg, s, aborted);
    case Abort(id) => if id < |s.runs| && !s.runs[id].aborted { AbortKeepsInv(cfg, s, id); }
    case Resume(id) => ResumeKeepsInv(cfg, s, id);
    case HardCap(id) => if id < |s.runs| && s.runs[id].started { AbandonKeepsInv(cfg, s, id); }
    case Settle(id) => if id < |s.runs| && Underway(s.runs[id]) { SettleKeepsInv(cfg, s, id); }
  }

  // ---------------------------------------------------------- main results

  /** Every state of every run satisfies the invariant. */
  lemma {:induction false} Reachable(cfg: Config, events: seq<Event>)
    requires Accepted(cfg)
    ensures Inv(cfg, Exec(cfg, events))
  {
    if events != [] {
      Reachable(cfg, events[..|events| - 1]);
      StepKeepsInv(cfg, Exec(cfg, events[..|events| - 1]), events[|events| - 1]);
    }
  }

  /** However callers, timers and signals interleave, the operations that are
      really running never exceed `maxConcurrent + maxAbandoned - 1`. */
  lemma {:induction false} RunningOperationsAreBounded(cfg: Config, events: seq<Event>)
    requires Accepted(cfg)
    ensures var s := Exec(cfg, events);
            && s.active <= cfg.maxConcurrent
            && s.abandonedUnsettled == |Where(s.runs, Lingers)|
            && s.active + s.abandonedUnsettled <= cfg.maxConcurrent + cfg.maxAbandoned - 1
            && |Where(s.runs, Underway)| <= cfg.maxConcurrent + cfg.maxAbandoned - 1
  {
    Reachable(cfg, events);
    var s := Exec(cfg, events);
    var held, lingering := Where(s.runs, Holds), Where(s.runs, Lingers);
    assert Where(s.runs, Underway) <= held + lingering;
    SubsetCount(Where(s.runs, Underway), held + lingering);
  }

  lemma {:induction false} SubsetCount(a: set<nat>, b: set<nat>)
    requires a <= b
    ensures |a| <= |b|
    decreases a
  {
    if a != {} {
      var x :| x in a;
      SubsetCount(a - {x}, b - {x});
    }
  }

  /** Permit conservation: a run is granted at most one permit and gives it back
      at most once, and the permits out are the grants not yet given back. */
  lemma {:induction false} PermitsAreConserved(cfg: Config, events: seq<Event>, id: nat)
    requires Accepted(cfg)
    ensures var s := Exec(cfg, events);
            && Distinct(s.grants) && Distinct(s.releases)
            && s.active == |s.grants| - |s.releases|
            && (id in s.releases ==> id in s.grants)
            && (id < |s.runs| ==> (Holds(s.runs[id]) <==> id in s.grants && id !in s.releases))
  {
    Reachable(cfg, events);
    var s := Exec(cfg, events);
    assert s.grants == (s.grants + s.waiters)[..|s.grants|];
  }

  /** Once every call is over, nothing is left behind. */
  lemma {:induction false} QuiescenceLeavesNothing(cfg: Config, events: seq<Event>)
    requires Accepted(cfg)
    requires forall r :: r in Exec(cfg, events).runs ==> Over(r)
    ensures var s := Exec(cfg, events);
            s.active == 0 && s.abandonedUnsettled == 0 && s.waiters == [] && multiset(s.grants) == multiset(s.releases)
  {
    Reachable(cfg, events);
    var s := Exec(cfg, events);
    assert forall i :: 0 <= i < |s.runs| ==> s.runs[i] in s.runs;
    assert Where(s.runs, Holds) == {} && Where(s.runs, Lingers) == {};
    HeadIsMember(s.waiters);
    assert s.grants == (s.grants + s.waiters)[..|s.grants|];
    DistinctCounts(s.grants);
    DistinctCounts(s.releases);
  }

  lemma HeadIsMember(s: seq<nat>)
    ensures s != [] ==> s[0] in s
  {
  }

  lemma GrantsPrecedeWaiters(grants: seq<nat>, waiters: seq<nat>)
    requires Increasing(grants + waiters)
    ensures forall g: nat, w: nat :: g in grants && w in waiters ==> g < w
  {
    forall i, j | 0 <= i < |grants| && 0 <= j < |waiters| ensures grants[i] < waiters[j] {
      assert (grants + waiters)[i] < (grants + waiters)[|grants| + j];
    }
  }

  lemma {:induction false} DistinctCounts(s: seq<nat>)
    requires Distinct(s)
    ensures forall x: nat :: multiset(s)[x] == if x in s then 1 else 0
  {
    if s != [] {
      DistinctCounts(s[1..]);
      assert s == [s[0]] + s[1..];
    }
  }

  /** The `Math.max(0, ...)` clamps never bind: whenever a counter is decremented
      it was positive. */
  lemma ClampsNeverBind(cfg: Config, events: seq<Event>, id: nat)
    requires Accepted(cfg) && id < |Exec(cfg, events).runs|
    ensures var s := Exec(cfg, events);
            (Holds(s.runs[id]) ==> s.active >= 1) && (Lingers(s.runs[id]) ==> s.abandonedUnsettled >= 1)
  {
    Reachable(cfg, events);
    var s := Exec(cfg, events);
    assert Holds(s.runs[id]) ==> id in Where(s.runs, Holds);
    assert Lingers(s.runs[id]) ==> id in Where(s.runs, Lingers);
  }

  /** Waiters are served in entry order, nobody waits in vain, and a waiter in
      the queue has not been settled. */
  lemma WaitersAreServedInOrder(cfg: Config, events: seq<Event>, later: nat, earlier: nat)
    requires Accepted(cfg)
    ensures var s := Exec(cfg, events);
            && Saturated(cfg, s)
            && (forall w: nat :: w in s.waiters <==> w < |s.runs| && !s.runs[w].settled)
            && (earlier < later < |s.runs| && s.runs[later].granted ==> s.runs[earlier].settled)
  {
    Reachable(cfg, events);
    var s := Exec(cfg, events);
    GrantsPrecedeWaiters(s.grants, s.waiters);
  }

  /** An operation that never settles does not keep its permit: the hard cap, or
      its caller's abort, gives it back and counts the operation as abandoned. */
  lemma {:induction false} StuckOperationsGiveTheirPermitBack(cfg: Config, events: seq<Event>, id: nat)
    requires Accepted(cfg) && id < |Exec(cfg, events).runs| && Underway(Exec(cfg, events).runs[id])
    ensures Freed(Step(cfg, Exec(cfg, events), HardCap(id)), id)
    ensures Exec(cfg, events).runs[id].aborted || Freed(Step(cfg, Exec(cfg, events), Abort(id)), id)
  {
    Reachable(cfg, events);
    var s := Exec(cfg, events);
    AbandoningFrees(cfg, s, id);
    var r := s.runs[id].(aborted := true);
    if !s.runs[id].aborted {
      MarkingKeepsInv(cfg, s, id, r);
      AbandoningFrees(cfg, s.(runs := s.runs[id := r]), id);
    }
  }

  predicate Freed(s: State, id: nat) {
    id < |s.runs| && !Holds(s.runs[id]) && Lingers(s.runs[id])
  }

  lemma AbandoningFrees(cfg: Config, s: State, id: nat)
    requires Inv(cfg, s) && id < |s.runs| && Underway(s.runs[id])
    ensures Freed(Abandon(cfg, s, id), id)
  {
    var r := s.runs[id];
    if !r.hardCapReleased {
      var r1 := r.(hardCapReleased := true, permitReleased := true);
      var u := s.(active := AtLeastZero(s.active - 1), abandonedUnsettled := s.abandonedUnsettled + 1,
                  runs := s.runs[id := r1], releases := s.releases + [id]);
      var marked := s.runs[id := r.(hardCapReleased := true)];
      assert marked[id := marked[id].(permitReleased := true)] == u.runs;
      DrainLeavesSettledRuns(cfg, u, id);
    }
  }

  lemma {:induction false} DrainLeavesSettledRuns(cfg: Config, s: State, id: nat)
    requires Wired(s) && id < |s.runs| && s.runs[id].settled
    ensures Drain(cfg, s).runs[id] == s.runs[id]
    decreases |s.waiters|
  {
    if CanGrant(cfg, s) {
      DrainLeavesSettledRuns(cfg, Grant(s), id);
    }
  }

  // ------------------------------------------------------ the bound is tight

  const LIVE := NEW_RUN.(settled := true, granted := true, started := true)
  const LEFT := LIVE.(aborted := true, permitReleased := true, hardCapReleased := true)

  lemma ExecSnoc(cfg: Config, events: seq<Event>, e: Event)
    ensures Exec(cfg, events + [e]) == Step(cfg, Exec(cfg, events), e)
  {
    assert (events + [e])[..|events + [e]| - 1] == events;
  }

  /** A call that finds both budgets open runs at once. */
  lemma EnterAndStart(cfg: Config, events: seq<Event>) returns (events': seq<Event>)
    requires Accepted(cfg)
    requires var s := Exec(cfg, events);
             s.waiters == [] && s.active < cfg.maxConcurrent && s.abandonedUnsettled < cfg.maxAbandoned
    ensures var s := Exec(cfg, events);
            var t := Exec(cfg, events');
            && t.waiters == [] && t.active == s.active + 1 && t.abandonedUnsettled == s.abandonedUnsettled
            && t.runs == s.runs + [LIVE]
  {
    var n := |Exec(cfg, events).runs|;
    ExecSnoc(cfg, events, Enter(false));
    ExecSnoc(cfg, events + [Enter(false)], Resume(n));
    events' := events + [Enter(false)] + [Resume(n)];
    TwoStepsToStart(cfg, Exec(cfg, events));
  }

  lemma TwoStepsToStart(cfg: Config, s: State)
    requires Wired(s) && s.waiters == [] && s.active < cfg.maxConcurrent && s.abandonedUnsettled < cfg.maxAbandoned
    ensures var t := Step(cfg, Step(cfg, s, Enter(false)), Resume(|s.runs|));
            && t.waiters == [] && t.active == s.active + 1 && t.abandonedUnsettled == s.abandonedUnsettled
            && t.runs == s.runs + [LIVE]
  {
    var n := |s.runs|;
    var u := s.(runs := s.runs + [NEW_RUN], waiters := [n]);
    assert s.waiters + [n] == [n];
    var granted := Grant(u);
    assert granted.runs == s.runs + [NEW_RUN.(settled := true, granted := true)];
    assert Drain(cfg, u) == Drain(cfg, granted) == granted;
    assert granted.runs[n := LIVE] == s.runs + [LIVE];
  }

  lemma {:induction false} AbandonMany(cfg: Config, k: nat) returns (events: seq<Event>)
    requires Accepted(cfg) && k < cfg.maxAbandoned
    ensures var s := Exec(cfg, events);
            && s.waiters == [] && s.active == 0 && s.abandonedUnsettled == k
            && |s.runs| == k && forall i :: 0 <= i < k ==> s.runs[i] == LEFT
  {
    if k == 0 {
      events := [];
    } else {
      events := AbandonMany(cfg, k - 1);
      events := EnterAndStart(cfg, events);
      var s := Exec(cfg, events);
      ExecSnoc(cfg, events, Abort(k - 1));
      events := events + [Abort(k - 1)];
    }
  }

  lemma {:induction false} TheBoundIsTight(cfg: Config, n: nat) returns (events: seq<Event>)
    requires Accepted(cfg) && n <= cfg.maxConcurrent
    ensures var s := Exec(cfg, events);
            && s.waiters == [] && s.active == n && s.abandonedUnsettled == cfg.maxAbandoned - 1
            && |s.runs| == cfg.maxAbandoned - 1 + n && forall i :: 0 <= i < |s.runs| ==> Underway(s.runs[i])
  {
    if n == 0 {
      events := AbandonMany(cfg, cfg.maxAbandoned - 1);
    } else {
      events := TheBoundIsTight(cfg, n - 1);
      events := EnterAndStart(cfg, events);
    }
  }

  // --------------------------------------------------------------- the class

  /** The limiter as the program updates it. `runs` collects the variables its
      closures capture; each method is one synchronous stretch of code and is
      proved to perform exactly one step of the machine above. */
  class RouteProbeLimiter {
    const cfg: Config
    var active: int
    var abandonedUnsettled: int
    var waiters: seq<nat>
    var runs: seq<Run>
    ghost var grants: seq<nat>
    ghost var releases: seq<nat>

    ghost function Abs(): State
      reads this
    {
      State(active, abandonedUnsettled, waiters, runs, grants, releases)
    }

    ghost predicate Valid()
      reads this
    {
      Inv(cfg, Abs())
    }

    constructor (cfg: Config)
      requires Accepted(cfg)
      ensures Valid() && this.cfg == cfg && Abs() == INITIAL
    {
      this.cfg := cfg;
      active, abandonedUnsettled, waiters, runs, grants, releases := 0, 0, [], [], [], [];
      new;
      Reachable(cfg, []);
    }

    /** Rejects the options the constructor throws on. */
    static method Create(maxConcurrent: int, maxAbandoned: int, hardPermitHoldMs: int)
      returns (r: Result<RouteProbeLimiter, string>)
      ensures r.Ok? <==> maxConcurrent >= 1 && maxAbandoned >= 1 && hardPermitHoldMs >= 1
      ensures r.Ok? ==> fresh(r.value) && r.value.Valid() && r.value.Abs() == INITIAL
                        && r.value.cfg == Config(maxConcurrent, maxAbandoned)
    {
      if maxConcurrent < 1 {
        return Err("RouteProbeLimiter maxConcurrent must be >= 1");
      }
      if maxAbandoned < 1 {
        return Err("RouteProbeLimiter maxAbandoned must be >= 1");
      }
      if hardPermitHoldMs < 1 {
        return Err("RouteProbeLimiter hardPermitHoldMs must be >= 1");
      }
      var limiter := new RouteProbeLimiter(Config(maxConcurrent, maxAbandoned));
      r := Ok(limiter);
    }

    method DrainQueue()
      requires Wired(Abs())
      modifies this
      ensures Abs() == Drain(cfg, old(Abs()))
    {
      while active < cfg.maxConcurrent && abandonedUnsettled < cfg.maxAbandoned && |waiters| > 0
        invariant Wired(Abs())
        invariant Drain(cfg, Abs()) == Drain(cfg, old(Abs()))
        decreases |waiters|
      {
        var w := waiters[0];
        waiters := waiters[1..];
        active := active + 1;
        if !runs[w].settled {
          runs := runs[w := runs[w].(settled := true, granted := true)];
          grants := grants + [w];
        }
      }
    }

    method ReleasePermitOf(id: nat)
      requires Wired(Abs()) && id < |runs|
      modifies this
      ensures Abs() == ReleasePermit(cfg, old(Abs()), id)
    {
      if runs[id].permitReleased {
        return;
      }
      runs := runs[id := runs[id].(permitReleased := true)];
      active := AtLeastZero(active - 1);
      releases := releases + [id];
      DrainQueue();
    }

    method AbandonProbe(id: nat)
      requires Wired(Abs()) && id < |runs|
      modifies this
      ensures Abs() == Abandon(cfg, old(Abs()), id)
    {
      if runs[id].operationSettled || runs[id].hardCapReleased {
        return;
      }
      runs := runs[id := runs[id].(hardCapReleased := true)];
      abandonedUnsettled := abandonedUnsettled + 1;
      ReleasePermitOf(id);
    }

    /** `run` up to its first await: an aborted signal throws at once, any other
        caller queues behind those already waiting. */
    method EnterRun(aborted: bool) returns (id: nat)
      requires Valid()
      modifies this
      ensures id == |old(runs)|
      ensures Valid() && Abs() == Step(cfg, old(Abs()), Enter(aborted))
    {
      StepKeepsInv(cfg, Abs(), Enter(aborted));
      id := |runs|;
      if aborted {
        runs := runs + [NEW_RUN.(settled := true, aborted := true)];
      } else {
        runs := runs + [NEW_RUN];
        waiters := waiters + [id];
        DrainQueue();
      }
    }

    method FireAbort(id: nat)
      requires Valid() && id < |runs|
      modifies this
      ensures Valid() && Abs() == Step(cfg, old(Abs()), Abort(id))
    {
      StepKeepsInv(cfg, Abs(), Abort(id));
      if runs[id].aborted {
        return;
      }
      runs := runs[id := runs[id].(aborted := true)];
      if !runs[id].settled {
        runs := runs[id := runs[id].(settled := true)];
        waiters := Without(waiters, id);
        DrainQueue();
      } else if runs[id].started {
        AbandonProbe(id);
      }
    }

    method ResumeAfterAcquire(id: nat)
      requires Valid() && id < |runs| && Holds(runs[id]) && !runs[id].started
      modifies this
      ensures Valid() && Abs() == Step(cfg, old(Abs()), Resume(id))
    {
      StepKeepsInv(cfg, Abs(), Resume(id));
      if runs[id].aborted {
        ReleasePermitOf(id);
      } else {
        runs := runs[id := runs[id].(started := true)];
      }
    }

    method FireHardCap(id: nat)
      requires Valid() && id < |runs| && runs[id].started
      modifies this
      ensures Valid() && Abs() == Step(cfg, old(Abs()), HardCap(id))
    {
      StepKeepsInv(cfg, Abs(), HardCap(id));
      AbandonProbe(id);
    }

    method OperationSettled(id: nat)
      requires Valid() && id < |runs| && Underway(runs[id])
      modifies this
      ensures Valid() && Abs() == Step(cfg, old(Abs()), Settle(id))
    {
      StepKeepsInv(cfg, Abs(), Settle(id));
      NoteSettled(id);
    }

    method NoteSettled(id: nat)
      requires Wired(Abs()) && id < |runs|
      modifies this
      ensures Abs() == SettleOperation(cfg, old(Abs()), id)
    {
      runs := runs[id := runs[id].(operationSettled := true)];
      ReleasePermitOf(id);
      if runs[id].hardCapReleased {
        abandonedUnsettled := AtLeastZero(abandonedUnsettled - 1);
        DrainQueue();
      }
    }
  }
}
