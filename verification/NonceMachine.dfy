/** Nonce issuing for one address: a promise chain of jobs, the in-memory next
    nonce, the floor kept on disk, and what the process's cache shows of it.
    Every stretch between two awaits is one step, and a crash may fall between
    any two of them.

    Jobs are numbered in the order they were enqueued. */
module NonceMachine {
  import opened Wrappers

  /** A floor kept for this address. */
  datatype Floor = Floor(next: nat, expiresAtMs: Option<nat>, expiresAtBlock: Option<nat>)

  /** Why the pending nonce is being read: no nonce is stored, a job failed, or
      a job failed with its nonce consumed. */
  datatype Why = Fresh | AfterFailure(nonce: nat) | AfterConsumed(nonce: nat, preserved: nat)

  /** What a job is waiting for. */
  datatype Pc =
    | Queued                                        // the job before it
    | ReadPending(why: Why)                         // the readers' pending nonces
    | ReadChainId(why: Why, observed: nat)
    | ReadFloor(why: Why, observed: nat)            // getDurableNonceFloor
    | ReadBlock(why: Why, observed: nat, floor: Floor)
    | ClearFloor(why: Why, observed: nat, floor: Floor, byBlock: bool)  // because of the block number
    | Body(nonce: nat)                              // the transaction function
    | Delay(nonce: nat)                             // the cache-refresh pause after success
    | Settled

  /** `previous` is the map entry the job found when it was enqueued. */
  datatype Job = Job(previous: Option<nat>, pc: Pc)

  /** What the store's cached map has for this address: what the disk has, or a
      change that a failed write left in the map under a matching signature. */
  datatype Cache = Current | Unwritten(floor: Option<Floor>)

  /** How a clearing ends: well; with an exception before the entry was deleted in
      memory; between that and the rename; or after the rename. */
  datatype Clearing = Cleared | NotBegun | NotWritten | WrittenButThrew

  /** Whether the floor on disk is one that a clearing has given up without getting
      it off the disk, in this process or in one before it. */
  datatype Lapse = Upheld | GivenUp | GivenUpBeforeRestart

  /** Process memory: `next` and `tail` are the entries of `nonces` and `queues`
      for this address, `cache` is the store's. The disk: `floor`. The world:
      `seen`, a bound no later pending read falls below, and the clocks. History:
      `lapse`; `issued`, every nonce handed to a transaction function; and
      `guarded`, the nonces accepted publicly, or privately with their floor
      written, and not since given up by the clearing of an expired floor. */
  datatype Account = Account(
    next: Option<nat>, jobs: seq<Job>, tail: Option<nat>, cache: Cache,
    floor: Option<Floor>, lapse: Lapse,
    seen: nat, now: nat, block: nat,
    issued: seq<nat>, guarded: set<nat>)

  datatype Event =
    | Enqueue
    | Start(job: nat)
    | AddressFails(job: nat)                        // getNonce's own getAddress
    | PendingRead(job: nat, values: seq<int>)       // -1 for a reader that failed or timed out
    | ChainId(job: nat, ok: bool)
    | FloorRead(job: nat, ok: bool)
    | BlockRead(job: nat, block: Option<nat>)
    | FloorCleared(job: nat, outcome: Clearing)
    | PublicAccept(job: nat)
    | MarkFloor(job: nat, expiresAtMs: Option<nat>, expiresAtBlock: Option<nat>)
    | MarkNotWritten(job: nat, expiresAtMs: Option<nat>, expiresAtBlock: Option<nat>)
    | CacheReloaded                                 // for another address, or after another writer
    | BodyReturns(job: nat)
    | BodyFails(job: nat)                           // any other error
    | BodyConsumed(job: nat)                        // NonceConsumedTransactionError
    | DelayOver(job: nat)
    | Cleanup(job: nat)                             // the `.then` that removes the map entry
    | Tick(now: nat)
    | Crash

  const INITIAL := Account(None, [], None, Current, None, Upheld, 0, 0, 0, [], {})

  function Max(a: nat, b: nat): nat { if a < b then b else a }

  /** Math.max(...values), with failures as -1. */
  function Highest(values: seq<int>): int {
    if values == [] then -1
    else if values[0] > Highest(values[1..]) then values[0] else Highest(values[1..])
  }

  function SetPc(a: Account, j: nat, pc: Pc): Account
    requires j < |a.jobs|
  {
    a.(jobs := a.jobs[j := a.jobs[j].(pc := pc)])
  }

  predicate At(a: Account, j: nat) { j < |a.jobs| }

  /** A job starts once the promise it was chained to has settled, whether that
      job succeeded or failed. */
  predicate CanStart(a: Account, j: nat) {
    && At(a, j) && a.jobs[j].pc.Queued?
    && (a.jobs[j].previous.Some? ==>
          a.jobs[j].previous.value < |a.jobs| && a.jobs[a.jobs[j].previous.value].pc.Settled?)
  }

  /** getNonce with a stored nonce: hand it out and store the next one. */
  function Issue(a: Account, j: nat, n: nat): Account
    requires At(a, j)
  {
    SetPc(a, j, Body(n)).(next := Some(n + 1), issued := a.issued + [n])
  }

  /** getPendingNonce returned `r`, or threw when r is None. */
  function Deliver(a: Account, j: nat, why: Why, r: Option<nat>): Account
    requires At(a, j)
  {
    match why
    case Fresh =>
      if r.None? then SetPc(a, j, Settled) else Issue(a, j, r.value)
    case AfterFailure(_) =>
      SetPc(if r.None? then a else a.(next := r), j, Settled)
    case AfterConsumed(_, preserved) =>
      SetPc(a.(next := Some(if r.None? then preserved else Max(preserved, r.value))), j, Settled)
  }

  /** What getDurableNonceFloor finds: the cached map's entry. */
  function Shown(a: Account): Option<Floor> {
    if a.cache.Current? then a.floor else a.cache.floor
  }

  /** What applyDurableNonceFloor does with the floor it has read. */
  function WeighFloor(a: Account, j: nat, why: Why, observed: nat): Account
    requires At(a, j)
  {
    match Shown(a)
    case None => Deliver(a, j, why, Some(observed))
    case Some(f) =>
      if observed >= f.next then SetPc(a, j, ClearFloor(why, observed, f, false))
      else if f.expiresAtMs.Some? && a.now >= f.expiresAtMs.value
      then SetPc(a, j, ClearFloor(why, observed, f, false))
      else if f.expiresAtBlock.Some? then SetPc(a, j, ReadBlock(why, observed, f))
      else Deliver(a, j, why, Some(f.next))
  }

  /** The nonces still guarded when the floor on disk goes. Where the provider has
      caught up with it nothing is given up; otherwise the nonces from the observed
      one on are. */
  function StillGuarded(a: Account, observed: nat): set<nat> {
    if a.floor.Some? && observed < a.floor.value.next then set n | n in a.guarded && n < observed else a.guarded
  }

  /** The floor leaves the disk. */
  function DropFloor(a: Account, observed: nat): Account {
    a.(floor := None, cache := Current, lapse := Upheld, guarded := StillGuarded(a, observed))
  }

  /** The floor leaves the cached map only. */
  function HideFloor(a: Account, observed: nat): Account {
    a.(cache := Unwritten(None),
       lapse := if a.floor.Some? && observed < a.floor.value.next then GivenUp else a.lapse,
       guarded := StillGuarded(a, observed))
  }

  function AfterClearing(a: Account, observed: nat, outcome: Clearing): Account {
    match outcome
    case NotBegun => a
    case NotWritten => HideFloor(a, observed)
    case _ => DropFloor(a, observed)
  }

  /** The locked reload finds what is on disk, and with nothing there to delete
      nothing is written that could fail. */
  predicate CanEnd(a: Account, outcome: Clearing) {
    a.floor.None? ==> outcome.Cleared? || outcome.NotBegun?
  }

  /** What getPendingNonce returns after a clearing, None when it throws. The one
      for the block number is made inside the try that reads that number: its
      failure is only logged, and the floor is used after all. */
  function ClearingGives(pc: Pc, ok: bool): Option<nat>
    requires pc.ClearFloor?
  {
    if ok then Some(pc.observed) else if pc.byBlock then Some(pc.floor.next) else None
  }

  /** The locked upsert keeps a higher floor already on disk. */
  predicate Keeps(floor: Option<Floor>, next: nat) { floor.Some? && floor.value.next > next }

  function RaiseFloor(floor: Option<Floor>, f: Floor): Floor {
    if Keeps(floor, f.next) then floor.value else f
  }

  /** The floor of nonce n has been written, or a higher one found on disk. */
  function Marked(a: Account, n: nat, f: Floor): Account {
    a.(floor := Some(RaiseFloor(a.floor, f)), cache := Current,
       lapse := if Keeps(a.floor, f.next) then a.lapse else Upheld,
       guarded := a.guarded + {n})
  }

  function Step(a: Account, e: Event): Account {
    match e
    case Enqueue =>
      a.(jobs := a.jobs + [Job(a.tail, Queued)], tail := Some(|a.jobs|))
    case Start(j) =>
      if !CanStart(a, j) then a
      else if a.next.None? then SetPc(a, j, ReadPending(Fresh))
      else Issue(a, j, a.next.value)
    case AddressFails(j) =>
      if CanStart(a, j) then SetPc(a, j, Settled) else a
    case PendingRead(j, values) =>
      if !At(a, j) || !a.jobs[j].pc.ReadPending? then a
      else
        var why, v := a.jobs[j].pc.why, Highest(values);
        if v < 0 then Deliver(a, j, why, None)
        else SetPc(a, j, ReadChainId(why, v)).(seen := Max(a.seen, v))
    case ChainId(j, ok) =>
      if !At(a, j) || !a.jobs[j].pc.ReadChainId? then a
      else
        var why, v := a.jobs[j].pc.why, a.jobs[j].pc.observed;
        if ok then SetPc(a, j, ReadFloor(why, v)) else Deliver(a, j, why, Some(v))
    case FloorRead(j, ok) =>
      if !At(a, j) || !a.jobs[j].pc.ReadFloor? then a
      else
        var why, v := a.jobs[j].pc.why, a.jobs[j].pc.observed;
        if ok then WeighFloor(a, j, why, v) else Deliver(a, j, why, None)
    case BlockRead(j, block) =>
      if !At(a, j) || !a.jobs[j].pc.ReadBlock? then a
      else
        var why, v, f := a.jobs[j].pc.why, a.jobs[j].pc.observed, a.jobs[j].pc.floor;
        if block.Some? && f.expiresAtBlock.Some? && block.value > f.expiresAtBlock.value
        then SetPc(a, j, ClearFloor(why, v, f, true)).(block := Max(a.block, block.value))
        else Deliver(a, j, why, Some(f.next))
    case FloorCleared(j, outcome) =>
      if !At(a, j) || !a.jobs[j].pc.ClearFloor? || !CanEnd(a, outcome) then a
      else
        var pc := a.jobs[j].pc;
        Deliver(AfterClearing(a, pc.observed, outcome), j, pc.why, ClearingGives(pc, outcome.Cleared?))
    case PublicAccept(j) =>
      if !At(a, j) || !a.jobs[j].pc.Body? then a
      else
        var n := a.jobs[j].pc.nonce;
        a.(seen := Max(a.seen, n + 1), guarded := a.guarded + {n})
    case MarkFloor(j, expiresAtMs, expiresAtBlock) =>
      if !At(a, j) || !a.jobs[j].pc.Body? then a
      else Marked(a, a.jobs[j].pc.nonce, Floor(a.jobs[j].pc.nonce + 1, expiresAtMs, expiresAtBlock))
    case MarkNotWritten(j, expiresAtMs, expiresAtBlock) =>
      if !At(a, j) || !a.jobs[j].pc.Body? || Keeps(a.floor, a.jobs[j].pc.nonce + 1) then a
      else a.(cache := Unwritten(Some(Floor(a.jobs[j].pc.nonce + 1, expiresAtMs, expiresAtBlock))))
    case CacheReloaded => a.(cache := Current)
    case BodyReturns(j) =>
      if !At(a, j) || !a.jobs[j].pc.Body? then a else SetPc(a, j, Delay(a.jobs[j].pc.nonce))
    case BodyFails(j) =>
      if !At(a, j) || !a.jobs[j].pc.Body? then a
      else SetPc(a, j, ReadPending(AfterFailure(a.jobs[j].pc.nonce)))
    case BodyConsumed(j) =>
      if !At(a, j) || !a.jobs[j].pc.Body? then a
      else
        var n := a.jobs[j].pc.nonce;
        var preserved := if a.next.Some? then Max(a.next.value, n + 1) else n + 1;
        SetPc(a, j, ReadPending(AfterConsumed(n, preserved)))
    case DelayOver(j) =>
      if !At(a, j) || !a.jobs[j].pc.Delay? then a else SetPc(a, j, Settled)
    case Cleanup(j) =>
      if At(a, j) && a.jobs[j].pc.Settled? && a.tail == Some(j) then a.(tail := None) else a
    case Tick(now) =>
      a.(now := Max(a.now, now))
    case Crash =>
      a.(next := None, jobs := [], tail := None, cache := Current,
         lapse := if a.lapse.GivenUp? then GivenUpBeforeRestart else a.lapse)
  }

  // ------------------------------------------------------------ assumptions

  /** What the world is taken to do: a pending read that gets an answer at all
      is not below an earlier answer or below a publicly accepted nonce, and
      asking the chain id succeeds. */
  predicate Fair(a: Account, e: Event) {
    && (e.PendingRead? && Highest(e.values) >= 0 ==> Highest(e.values) >= a.seen)
    && (e.ChainId? ==> e.ok)
  }

  /** The states that runs of n fair steps lead to. */
  ghost predicate ReachedIn(n: nat, a: Account) {
    if n == 0 then a == INITIAL
    else exists b, e :: ReachedIn(n - 1, b) && Fair(b, e) && Step(b, e) == a
  }

  ghost predicate Reached(a: Account) {
    exists n: nat :: ReachedIn(n, a)
  }

  // -------------------------------------------------------------- invariant

  predicate Active(pc: Pc) { !pc.Queued? && !pc.Settled? }

  /** The promise chain is a queue: the map entry is the last job while anything
      is unsettled, and a job has started only when all before it are settled. */
  ghost predicate Chain(jobs: seq<Job>, tail: Option<nat>) {
    && (tail.Some? ==> tail.value + 1 == |jobs|)
    && (tail.None? ==> forall i :: 0 <= i < |jobs| ==> jobs[i].pc.Settled?)
    && (forall j :: 0 <= j < |jobs| && jobs[j].previous.Some? ==> jobs[j].previous.value + 1 == j)
    && (forall i, j :: 0 <= i < j < |jobs| && jobs[j].previous.None? ==> jobs[i].pc.Settled?)
    && (forall i, j :: 0 <= i < j < |jobs| && !jobs[j].pc.Queued? ==> jobs[i].pc.Settled?)
  }

  ghost predicate WhyOk(a: Account, why: Why) {
    match why
    case Fresh => a.next.None?
    case AfterFailure(n) => a.next == Some(n + 1)
    case AfterConsumed(n, preserved) => a.next == Some(n + 1) && preserved == n + 1
  }

  predicate TimeIsUp(a: Account, f: Floor) { f.expiresAtMs.Some? && a.now >= f.expiresAtMs.value }

  predicate BlockIsPast(a: Account, f: Floor) { f.expiresAtBlock.Some? && a.block > f.expiresAtBlock.value }

  predicate Expired(a: Account, f: Floor) { TimeIsUp(a, f) || BlockIsPast(a, f) }

  /** Why a floor is being cleared: its block has passed while the provider lags
      behind it, or the provider has caught up or its time is up. */
  predicate DueToBeCleared(a: Account, observed: nat, f: Floor, byBlock: bool) {
    if byBlock then observed < f.next && BlockIsPast(a, f) else observed >= f.next || TimeIsUp(a, f)
  }

  /** Floor f is at least as high as the one on disk and the one the cache shows. */
  predicate Covers(a: Account, f: Floor) {
    && (a.floor.Some? ==> a.floor.value.next <= f.next)
    && (Shown(a).Some? ==> Shown(a).value.next <= f.next)
  }

  ghost predicate PcOk(a: Account, pc: Pc) {
    match pc
    case ReadPending(why) => WhyOk(a, why)
    case ReadChainId(why, v) => WhyOk(a, why) && v == a.seen
    case ReadFloor(why, v) => WhyOk(a, why) && v == a.seen
    case ReadBlock(why, v, f) => WhyOk(a, why) && v == a.seen && v < f.next && Covers(a, f)
    case ClearFloor(why, v, f, byBlock) =>
      WhyOk(a, why) && v == a.seen && Covers(a, f) && DueToBeCleared(a, v, f, byBlock)
    case Body(n) => a.next == Some(n + 1)
    case Delay(n) => a.next == Some(n + 1)
    case _ => true
  }

  /** r is not below a floor on disk that is upheld, or was before a restart, nor
      below the one that the cache shows instead. */
  predicate Dominates(a: Account, r: nat) {
    && (a.floor.Some? && !a.lapse.GivenUp? ==> a.floor.value.next <= r)
    && (a.cache.Unwritten? && a.cache.floor.Some? ==> a.cache.floor.value.next <= r)
  }

  /** What a failed write leaves in the cache: nothing, when the floor on disk has
      been given up or caught up with; or a floor not below the one on disk. */
  ghost predicate CacheOk(a: Account) {
    a.cache.Unwritten? ==>
      if a.cache.floor.None? then
        && (a.floor.Some? ==> a.lapse.GivenUp? || a.floor.value.next <= a.seen)
        && (forall n :: n in a.guarded ==> n < a.seen)
      else
        a.floor.Some? ==> a.floor.value.next <= a.cache.floor.value.next
  }

  /** Every guarded nonce is below the stored next nonce, and stays below what a
      restarted process can learn: the pending reads or the floor on disk. The
      stored next nonce dominates the floors, and an upheld floor is that of a
      guarded nonce. */
  ghost predicate Protected(a: Account) {
    && CacheOk(a)
    && (forall n :: n in a.guarded ==> n < a.seen || (a.floor.Some? && n < a.floor.value.next))
    && (a.next.Some? ==> Safe(a, a.next.value))
    && (a.floor.Some? && a.lapse.Upheld? ==> a.floor.value.next > 0 && a.floor.value.next - 1 in a.guarded)
  }

  ghost predicate Inv(a: Account) {
    && Chain(a.jobs, a.tail) && Protected(a)
    && forall j :: 0 <= j < |a.jobs| ==> PcOk(a, a.jobs[j].pc)
  }

  /** A value that getPendingNonce may return: it respects every guarded nonce
      and the floors. */
  ghost predicate Safe(a: Account, r: nat) {
    (forall n :: n in a.guarded ==> n < r) && Dominates(a, r)
  }

  /** From a to t nothing was handed out, or one nonce that is safe. */
  ghost predicate IssuedSafely(a: Account, t: Account) {
    t.issued == a.issued || exists n: nat :: Safe(t, n) && t.issued == a.issued + [n]
  }

  /** All jobs before j are settled, all after it queued. */
  ghost predicate Alone(jobs: seq<Job>, tail: Option<nat>, j: nat) {
    && j < |jobs| && tail.Some? && Chain(jobs, tail)
    && (forall i :: 0 <= i < j ==> jobs[i].pc.Settled?)
    && (forall i :: j < i < |jobs| ==> jobs[i].pc.Queued?)
  }

  /** Job j is the one running, or about to start. */
  ghost predicate Running(jobs: seq<Job>, tail: Option<nat>, j: nat) {
    Alone(jobs, tail, j) && !jobs[j].pc.Settled?
  }

  lemma ActiveIsRunning(a: Account, j: nat)
    requires Chain(a.jobs, a.tail) && At(a, j) && (Active(a.jobs[j].pc) || CanStart(a, j))
    ensures Running(a.jobs, a.tail, j)
  {
    if CanStart(a, j) && a.jobs[j].previous.Some? {
      var p := a.jobs[j].previous.value;
      assert p + 1 == j;
      assert forall i :: 0 <= i < p ==> a.jobs[i].pc.Settled?;
    }
  }

  /** Only the running job's counter says anything about the nonces. */
  lemma RunningJobDecides(a: Account, j: nat)
    requires Alone(a.jobs, a.tail, j) && Protected(a) && PcOk(a, a.jobs[j].pc)
    ensures Inv(a)
  {
  }

  lemma MoveKeepsRunning(jobs: seq<Job>, tail: Option<nat>, j: nat, pc: Pc)
    requires Running(jobs, tail, j) && !pc.Queued?
    ensures Alone(jobs[j := jobs[j].(pc := pc)], tail, j)
  {
  }

  /** Moving the running job on keeps the invariant. */
  lemma MoveKeepsInv(a: Account, j: nat, pc: Pc)
    requires Running(a.jobs, a.tail, j) && Protected(a) && PcOk(a, pc) && !pc.Queued?
    ensures Inv(SetPc(a, j, pc))
  {
    MoveKeepsRunning(a.jobs, a.tail, j, pc);
    RunningJobDecides(SetPc(a, j, pc), j);
  }

  lemma IssueIsSafe(a: Account, j: nat, n: nat)
    requires At(a, j) && Safe(a, n)
    ensures IssuedSafely(a, Issue(a, j, n))
  {
    assert Safe(Issue(a, j, n), n);
  }

  lemma DeliverKeepsInv(a: Account, j: nat, why: Why, r: Option<nat>)
    requires Running(a.jobs, a.tail, j) && Protected(a) && (why.Fresh? || WhyOk(a, why))
    requires r.Some? ==> Safe(a, r.value)
    ensures Inv(Deliver(a, j, why, r)) && IssuedSafely(a, Deliver(a, j, why, r))
  {
    if why.Fresh? && r.Some? {
      IssueIsSafe(a, j, r.value);
    }
    match why
    case Fresh =>
      if r.None? {
        MoveKeepsInv(a, j, Settled);
      } else {
        MoveKeepsInv(a.(next := Some(r.value + 1), issued := a.issued + [r.value]), j, Body(r.value));
      }
    case AfterFailure(_) =>
      MoveKeepsInv(if r.None? then a else a.(next := r), j, Settled);
    case AfterConsumed(_, preserved) =>
      MoveKeepsInv(a.(next := Some(if r.None? then preserved else Max(preserved, r.value))), j, Settled);
  }

  lemma ReadsKeepInv(a: Account, e: Event)
    requires Inv(a) && Fair(a, e)
    requires e.PendingRead? || e.ChainId?
    ensures Inv(Step(a, e)) && IssuedSafely(a, Step(a, e))
  {
    var j := e.job;
    if At(a, j) && Active(a.jobs[j].pc) {
      ActiveIsRunning(a, j);
      var pc := a.jobs[j].pc;
      if e.PendingRead? && pc.ReadPending? {
        var v := Highest(e.values);
        if v < 0 {
          DeliverKeepsInv(a, j, pc.why, None);
        } else {
          MoveKeepsInv(a.(seen := v), j, ReadChainId(pc.why, v));
        }
      } else if e.ChainId? && pc.ReadChainId? {
        MoveKeepsInv(a, j, ReadFloor(pc.why, pc.observed));
      }
    }
  }

  lemma WeighFloorKeepsInv(a: Account, j: nat, why: Why, v: nat)
    requires Running(a.jobs, a.tail, j) && Protected(a) && WhyOk(a, why) && v == a.seen
    ensures Inv(WeighFloor(a, j, why, v)) && IssuedSafely(a, WeighFloor(a, j, why, v))
  {
    if Shown(a).None? {
      DeliverKeepsInv(a, j, why, Some(v));
    } else {
      var f := Shown(a).value;
      if v >= f.next || (f.expiresAtMs.Some? && a.now >= f.expiresAtMs.value) {
        MoveKeepsInv(a, j, ClearFloor(why, v, f, false));
      } else if f.expiresAtBlock.Some? {
        MoveKeepsInv(a, j, ReadBlock(why, v, f));
      } else {
        DeliverKeepsInv(a, j, why, Some(f.next));
      }
    }
  }

  lemma ClearingKeepsInv(a: Account, j: nat, pc: Pc, outcome: Clearing)
    requires Running(a.jobs, a.tail, j) && Protected(a) && pc.ClearFloor? && PcOk(a, pc) && CanEnd(a, outcome)
    ensures var t := Deliver(AfterClearing(a, pc.observed, outcome), j, pc.why, ClearingGives(pc, outcome.Cleared?));
            Inv(t) && IssuedSafely(a, t)
  {
    DeliverKeepsInv(AfterClearing(a, pc.observed, outcome), j, pc.why, ClearingGives(pc, outcome.Cleared?));
  }

  lemma FloorStepsKeepInv(a: Account, e: Event)
    requires Inv(a) && (e.FloorRead? || e.BlockRead? || e.FloorCleared?)
    ensures Inv(Step(a, e)) && IssuedSafely(a, Step(a, e))
  {
    var j := e.job;
    if At(a, j) && Active(a.jobs[j].pc) {
      ActiveIsRunning(a, j);
      var pc := a.jobs[j].pc;
      if e.FloorRead? && pc.ReadFloor? {
        if e.ok {
          WeighFloorKeepsInv(a, j, pc.why, pc.observed);
        } else {
          DeliverKeepsInv(a, j, pc.why, None);
        }
      } else if e.BlockRead? && pc.ReadBlock? {
        var f := pc.floor;
        if e.block.Some? && f.expiresAtBlock.Some? && e.block.value > f.expiresAtBlock.value {
          MoveKeepsInv(a.(block := Max(a.block, e.block.value)), j, ClearFloor(pc.why, pc.observed, f, true));
        } else {
          DeliverKeepsInv(a, j, pc.why, Some(f.next));
        }
      } else if e.FloorCleared? && pc.ClearFloor? && CanEnd(a, e.outcome) {
        ClearingKeepsInv(a, j, pc, e.outcome);
      }
    }
  }

  lemma AcceptanceKeepsInv(a: Account, e: Event)
    requires Inv(a) && (e.PublicAccept? || e.MarkFloor? || e.MarkNotWritten?)
    ensures Inv(Step(a, e)) && Step(a, e).issued == a.issued
  {
    var j := e.job;
    if At(a, j) && a.jobs[j].pc.Body? {
      ActiveIsRunning(a, j);
      AcceptanceKeepsProtected(a, e, a.jobs[j].pc.nonce);
      RunningJobDecides(Step(a, e), j);
    }
  }

  lemma AcceptanceKeepsProtected(a: Account, e: Event, n: nat)
    requires Protected(a) && a.next == Some(n + 1)
    requires e.PublicAccept? || e.MarkFloor? || e.MarkNotWritten?
    requires At(a, e.job) && a.jobs[e.job].pc == Body(n)
    ensures var t := Step(a, e);
            Protected(t) && t.next == a.next && t.jobs == a.jobs && t.tail == a.tail && t.issued == a.issued
  {
    match e
    case PublicAccept(_) =>
    case MarkFloor(_, ms, block) => MarkKeepsProtected(a, n, Floor(n + 1, ms, block));
    case MarkNotWritten(_, _, _) =>
    case _ =>
  }

  lemma MarkKeepsProtected(a: Account, n: nat, f: Floor)
    requires Protected(a) && a.next == Some(n + 1) && f.next == n + 1
    ensures Protected(Marked(a, n, f))
  {
  }

  lemma BodyStepsKeepInv(a: Account, e: Event)
    requires Inv(a) && (e.BodyReturns? || e.BodyFails? || e.BodyConsumed?)
    ensures Inv(Step(a, e)) && Step(a, e).issued == a.issued
  {
    var j := e.job;
    if At(a, j) && a.jobs[j].pc.Body? {
      ActiveIsRunning(a, j);
      var n := a.jobs[j].pc.nonce;
      assert PcOk(a, Body(n));
      if e.BodyReturns? {
        MoveKeepsInv(a, j, Delay(n));
      } else if e.BodyFails? {
        MoveKeepsInv(a, j, ReadPending(AfterFailure(n)));
      } else {
        MoveKeepsInv(a, j, ReadPending(AfterConsumed(n, n + 1)));
      }
    }
  }

  lemma DelayKeepsInv(a: Account, j: nat)
    requires Inv(a)
    ensures Inv(Step(a, DelayOver(j))) && Step(a, DelayOver(j)).issued == a.issued
  {
    if At(a, j) && a.jobs[j].pc.Delay? {
      ActiveIsRunning(a, j);
      MoveKeepsInv(a, j, Settled);
    }
  }

  lemma StartKeepsInv(a: Account, j: nat)
    requires Inv(a)
    ensures Inv(Step(a, Start(j))) && IssuedSafely(a, Step(a, Start(j)))
  {
    if CanStart(a, j) {
      ActiveIsRunning(a, j);
      if a.next.None? {
        MoveKeepsInv(a, j, ReadPending(Fresh));
      } else {
        DeliverKeepsInv(a, j, Fresh, Some(a.next.value));
      }
    }
  }

  lemma AddressFailureKeepsInv(a: Account, j: nat)
    requires Inv(a)
    ensures Inv(Step(a, AddressFails(j)))
  {
    if CanStart(a, j) {
      ActiveIsRunning(a, j);
      MoveKeepsInv(a, j, Settled);
    }
  }

  lemma EnqueueKeepsChain(jobs: seq<Job>, tail: Option<nat>)
    requires Chain(jobs, tail)
    ensures Chain(jobs + [Job(tail, Queued)], Some(|jobs|))
  {
  }

  lemma EnqueueKeepsInv(a: Account)
    requires Inv(a)
    ensures Inv(Step(a, Enqueue))
  {
    EnqueueKeepsChain(a.jobs, a.tail);
    var t := Step(a, Enqueue);
    forall i | 0 <= i < |t.jobs| ensures PcOk(t, t.jobs[i].pc) {
      if i < |a.jobs| {
        assert t.jobs[i] == a.jobs[i];
      }
    }
  }

  lemma ReloadKeepsInv(a: Account)
    requires Inv(a)
    ensures Inv(a.(cache := Current))
  {
    var t := a.(cache := Current);
    forall i | 0 <= i < |t.jobs| ensures PcOk(t, t.jobs[i].pc) {
      assert PcOk(a, a.jobs[i].pc);
    }
  }

  lemma CleanupKeepsInv(a: Account, j: nat)
    requires Inv(a)
    ensures Inv(Step(a, Cleanup(j)))
  {
    if At(a, j) && a.jobs[j].pc.Settled? && a.tail == Some(j) {
      assert forall i :: 0 <= i < j ==> a.jobs[i].pc.Settled?;
      assert Chain(a.jobs, None);
    }
  }

  lemma TickKeepsInv(a: Account, now: nat)
    requires Inv(a)
    ensures Inv(Step(a, Tick(now)))
  {
    var t := Step(a, Tick(now));
    forall i | 0 <= i < |t.jobs| ensures PcOk(t, t.jobs[i].pc) {
      assert PcOk(a, a.jobs[i].pc);
    }
  }

  /** Steps that belong to no job, and those that hand nothing out. */
  lemma QuietStepsKeepInv(a: Account, e: Event)
    requires Inv(a) && (e.Enqueue? || e.AddressFails? || e.Cleanup? || e.CacheReloaded? || e.Tick? || e.Crash?)
    ensures Inv(Step(a, e)) && Step(a, e).issued == a.issued
  {
    match e
    case Enqueue => EnqueueKeepsInv(a);
    case AddressFails(j) => AddressFailureKeepsInv(a, j);
    case Cleanup(j) => CleanupKeepsInv(a, j);
    case CacheReloaded => ReloadKeepsInv(a);
    case Tick(now) => TickKeepsInv(a, now);
    case _ =>
  }

  lemma StepKeepsInv(a: Account, e: Event)
    requires Inv(a) && Fair(a, e)
    ensures Inv(Step(a, e)) && IssuedSafely(a, Step(a, e))
  {
    if e.Start? {
      StartKeepsInv(a, e.job);
    } else if e.PendingRead? || e.ChainId? {
      ReadsKeepInv(a, e);
    } else if e.FloorRead? || e.BlockRead? || e.FloorCleared? {
      FloorStepsKeepInv(a, e);
    } else if e.PublicAccept? || e.MarkFloor? || e.MarkNotWritten? {
      AcceptanceKeepsInv(a, e);
    } else if e.BodyReturns? || e.BodyFails? || e.BodyConsumed? {
      BodyStepsKeepInv(a, e);
    } else if e.DelayOver? {
      DelayKeepsInv(a, e.job);
    } else {
      QuietStepsKeepInv(a, e);
    }
  }

  lemma {:induction false} ReachedInIsInv(n: nat, a: Account)
    requires ReachedIn(n, a)
    ensures Inv(a)
    decreases n, 1
  {
    if n > 0 {
      var b, e :| ReachedIn(n - 1, b) && Fair(b, e) && Step(b, e) == a;
      NextIsInv(n - 1, b, e, a);
    }
  }

  lemma {:induction false} NextIsInv(n: nat, a: Account, e: Event, t: Account)
    requires ReachedIn(n, a) && Fair(a, e) && Step(a, e) == t
    ensures Inv(t)
    decreases n, 2
  {
    ReachedInIsInv(n, a);
    StepKeepsInv(a, e);
  }

  /** The invariant holds in every state of every fair run. */
  lemma ReachedIsInv(a: Account)
    requires Reached(a)
    ensures Inv(a)
  {
    var n: nat :| ReachedIn(n, a);
    ReachedInIsInv(n, a);
  }

  lemma ReachedStep(a: Account, e: Event, t: Account)
    requires Reached(a) && Fair(a, e) && t == Step(a, e)
    ensures Reached(t)
  {
    var n: nat :| ReachedIn(n, a);
    assert ReachedIn(n + 1, t);
  }

  // ----------------------------------------------------------- main results

  /** The floor that getPendingNonce goes by: what the cache shows when it looks,
      and from then on what it has found. */
  function Weighed(a: Account, pc: Pc): Option<Floor> {
    match pc
    case ReadFloor(_, _) => Shown(a)
    case ReadBlock(_, _, f) => Some(f)
    case ClearFloor(_, _, f, _) => Some(f)
    case _ => None
  }

  /** The step deletes, at least in memory, a floor on disk that the provider has
      not caught up with. */
  predicate GivesUp(a: Account, e: Event) {
    && e.FloorCleared? && !e.outcome.NotBegun? && At(a, e.job) && a.jobs[e.job].pc.ClearFloor?
    && a.floor.Some? && a.seen < a.floor.value.next
  }

  /** A nonce accepted publicly, or privately with its floor written, is never
      handed out again, whatever fails and whenever the process crashes and
      restarts, unless this very step gives its floor up. */
  lemma AcceptedNoncesAreNeverReissued(a: Account, e: Event)
    requires Reached(a) && Fair(a, e)
    ensures var t := Step(a, e);
            t.issued != a.issued ==> exists n: nat ::
              && t.issued == a.issued + [n] && Safe(t, n)
              && (n in a.guarded ==> GivesUp(a, e) && a.seen <= n < a.floor.value.next)
  {
    ReachedIsInv(a);
    StepKeepsInv(a, e);
    GuardIsKept(a, e);
  }

  lemma GuardIsKept(a: Account, e: Event)
    requires Inv(a) && Fair(a, e)
    ensures forall n :: n in a.guarded && n !in Step(a, e).guarded ==> GivesUp(a, e) && a.seen <= n < a.floor.value.next
  {
    if e.FloorCleared? {
      ClearingKeepsGuards(a, e);
    } else {
      OnlyClearingsUnguard(a, e);
    }
  }

  lemma OnlyClearingsUnguard(a: Account, e: Event)
    requires !e.FloorCleared?
    ensures forall n :: n in a.guarded ==> n in Step(a, e).guarded
  {
  }

  lemma ClearingKeepsGuards(a: Account, e: Event)
    requires Inv(a) && e.FloorCleared?
    ensures forall n :: n in a.guarded && n !in Step(a, e).guarded ==> GivesUp(a, e) && a.seen <= n < a.floor.value.next
  {
    var j := e.job;
    if At(a, j) && a.jobs[j].pc.ClearFloor? && CanEnd(a, e.outcome) {
      assert PcOk(a, a.jobs[j].pc);
      DeliverKeepsTheStore(AfterClearing(a, a.jobs[j].pc.observed, e.outcome), j, a.jobs[j].pc.why,
                           ClearingGives(a.jobs[j].pc, e.outcome.Cleared?));
    }
  }

  lemma DeliverKeepsTheStore(a: Account, j: nat, why: Why, r: Option<nat>)
    requires At(a, j)
    ensures var t := Deliver(a, j, why, r); t.floor == a.floor && t.lapse == a.lapse && t.guarded == a.guarded
  {
  }

  /** A guarded nonce loses its protection in one way only: a clearing deletes the
      floor on disk, at least in memory, while no pending read had got past the
      nonce. The floor that was weighed for it had expired, and was not below the
      one on disk. */
  lemma ProtectionEndsOnlyByExpiry(a: Account, e: Event, n: nat)
    requires Reached(a) && Fair(a, e)
    requires n in a.guarded && n !in Step(a, e).guarded
    ensures GivesUp(a, e) && a.seen <= n < a.floor.value.next
    ensures var f := a.jobs[e.job].pc.floor; Expired(a, f) && a.floor.value.next <= f.next
  {
    ReachedIsInv(a);
    GuardIsKept(a, e);
    assert PcOk(a, a.jobs[e.job].pc);
  }

  // ------------------------------------------------------------- whole runs

  function StepAll(a: Account, es: seq<Event>): Account {
    if es == [] then a else Step(StepAll(a, es[..|es| - 1]), es[|es| - 1])
  }

  ghost predicate FairRun(a: Account, es: seq<Event>) {
    forall i :: 0 <= i < |es| ==> Fair(StepAll(a, es[..i]), es[i])
  }

  ghost predicate NothingGivenUp(a: Account, es: seq<Event>) {
    forall i :: 0 <= i < |es| ==> !GivesUp(StepAll(a, es[..i]), es[i])
  }

  lemma {:induction false} FairRunsReach(a: Account, es: seq<Event>)
    requires Reached(a) && FairRun(a, es)
    ensures Reached(StepAll(a, es))
  {
    if es != [] {
      var n := |es| - 1;
      PrefixIsFair(a, es, n);
      FairRunsReach(a, es[..n]);
      ReachedStep(StepAll(a, es[..n]), es[n], StepAll(a, es));
    }
  }

  lemma PrefixIsFair(a: Account, es: seq<Event>, n: nat)
    requires n <= |es| && FairRun(a, es)
    ensures FairRun(a, es[..n]) && (NothingGivenUp(a, es) ==> NothingGivenUp(a, es[..n]))
  {
    assert forall i :: 0 <= i < n ==> es[..n][..i] == es[..i];
  }

  /** Along every fair run from the acceptance of nonce n on, with any number of
      failures, crashes and restarts: as long as no clearing gives up a floor on
      disk, n is not handed out again. */
  lemma {:induction false} AcceptedStaysAccepted(a: Account, es: seq<Event>, n: nat)
    requires Reached(a) && n in a.guarded && FairRun(a, es) && NothingGivenUp(a, es)
    ensures var t := StepAll(a, es);
            && n in t.guarded && a.issued <= t.issued
            && forall i :: |a.issued| <= i < |t.issued| ==> t.issued[i] != n
  {
    if es != [] {
      var last := |es| - 1;
      PrefixIsFair(a, es, last);
      AcceptedStaysAccepted(a, es[..last], n);
      FairRunsReach(a, es[..last]);
      OneMoreStep(StepAll(a, es[..last]), es[last], StepAll(a, es), n);
    }
  }

  lemma OneMoreStep(a: Account, e: Event, t: Account, n: nat)
    requires Reached(a) && Fair(a, e) && n in a.guarded && !GivesUp(a, e) && t == Step(a, e)
    ensures n in t.guarded
    ensures t.issued == a.issued || exists m: nat :: m != n && t.issued == a.issued + [m]
  {
    if n !in t.guarded {
      ProtectionEndsOnlyByExpiry(a, e, n);
    }
    AcceptedNoncesAreNeverReissued(a, e);
  }

  /** The stored next nonce is absent, or not below the floor that the cache shows
      and not below the one on disk, with one exception: a floor on disk that a
      clearing of this process has given up and failed to write. */
  lemma FloorDominates(a: Account)
    requires Reached(a) && a.next.Some?
    ensures Shown(a).Some? && !(a.cache.Current? && a.lapse.GivenUp?) ==> Shown(a).value.next <= a.next.value
    ensures a.floor.Some? && !a.lapse.GivenUp? ==> a.floor.value.next <= a.next.value
  {
    ReachedIsInv(a);
  }

  /** The floor on disk changes only upwards, and leaves the disk only when a
      pending read has reached it or a floor not below it was found expired. */
  lemma FloorsAreKept(a: Account, e: Event)
    requires Reached(a) && Fair(a, e) && a.floor.Some?
    ensures FloorKept(a, Step(a, e).floor, e)
  {
    ReachedIsInv(a);
    FloorIsKept(a, e);
  }

  predicate FloorKept(a: Account, floor: Option<Floor>, e: Event)
    requires a.floor.Some?
  {
    if floor.Some? then a.floor.value.next <= floor.value.next
    else
      && e.FloorCleared? && At(a, e.job) && a.jobs[e.job].pc.ClearFloor?
      && var f := a.jobs[e.job].pc.floor;
         a.floor.value.next <= f.next && (a.seen >= a.floor.value.next || Expired(a, f))
  }

  lemma FloorIsKept(a: Account, e: Event)
    requires Inv(a) && Fair(a, e) && a.floor.Some?
    ensures FloorKept(a, Step(a, e).floor, e)
  {
    if e.FloorCleared? {
      ClearingKeepsTheFloor(a, e);
    } else {
      OnlyClearingsLowerTheFloor(a, e);
    }
  }

  lemma OnlyClearingsLowerTheFloor(a: Account, e: Event)
    requires !e.FloorCleared? && a.floor.Some?
    ensures Step(a, e).floor.Some? && a.floor.value.next <= Step(a, e).floor.value.next
  {
  }

  lemma ClearingKeepsTheFloor(a: Account, e: Event)
    requires Inv(a) && e.FloorCleared? && a.floor.Some?
    ensures FloorKept(a, Step(a, e).floor, e)
  {
    var j := e.job;
    if At(a, j) && a.jobs[j].pc.ClearFloor? && CanEnd(a, e.outcome) {
      assert PcOk(a, a.jobs[j].pc);
      DeliverKeepsTheStore(AfterClearing(a, a.jobs[j].pc.observed, e.outcome), j, a.jobs[j].pc.why,
                           ClearingGives(a.jobs[j].pc, e.outcome.Cleared?));
    }
  }

  predicate Reading(pc: Pc) {
    pc.ReadPending? || pc.ReadChainId? || pc.ReadFloor? || pc.ReadBlock? || pc.ClearFloor?
  }

  /** What getPendingNonce comes to: the floor it goes by, unless that has been
      cleared with success, and the highest pending nonce read otherwise. */
  function Answer(a: Account, pc: Pc, e: Event): nat {
    if Weighed(a, pc).Some? && !(e.FloorCleared? && e.outcome.Cleared?) then Weighed(a, pc).value.next else a.seen
  }

  /** getPendingNonce ended in an exception: no reader answered, the store could
      not be read, or clearing the floor for another reason than the block number
      failed. */
  predicate Threw(pc: Pc, e: Event) {
    || e.PendingRead?
    || (e.FloorRead? && !e.ok)
    || (e.FloorCleared? && !e.outcome.Cleared? && pc.ClearFloor? && !pc.byBlock)
  }

  /** The next nonce that a failed job leaves: resynchronised with the network and
      the floor, or kept at n + 1 when they could not be asked; and after a
      consumed-nonce error at n never below n + 1. */
  predicate LeftBy(why: Why, threw: bool, answer: nat, next: Option<nat>) {
    match why
    case Fresh => threw && next.None?
    case AfterFailure(n) => next == Some(if threw then n + 1 else answer)
    case AfterConsumed(n, _) => next == Some(if threw then n + 1 else Max(n + 1, answer))
  }

  /** A job that had started ends after its pause, its nonce used up, or while its
      pending nonce is being read, leaving exactly the next nonce it should. */
  lemma FailuresNeverRewindBlindly(a: Account, e: Event, j: nat)
    requires Reached(a) && Fair(a, e) && At(a, j) && Active(a.jobs[j].pc)
    requires At(Step(a, e), j) && Step(a, e).jobs[j].pc.Settled?
    ensures var pc := a.jobs[j].pc;
            if pc.Delay? then Step(a, e).next == Some(pc.nonce + 1)
            else Reading(pc) && LeftBy(pc.why, Threw(pc, e), Answer(a, pc, e), Step(a, e).next)
  {
    ReachedIsInv(a);
    EndingsAreExact(a, e, j);
  }

  lemma EndingsAreExact(a: Account, e: Event, j: nat)
    requires Inv(a) && Fair(a, e) && At(a, j) && Active(a.jobs[j].pc)
    requires At(Step(a, e), j) && Step(a, e).jobs[j].pc.Settled?
    ensures var pc := a.jobs[j].pc;
            if pc.Delay? then Step(a, e).next == Some(pc.nonce + 1)
            else Reading(pc) && LeftBy(pc.why, Threw(pc, e), Answer(a, pc, e), Step(a, e).next)
  {
    SettledFrom(a, e, j);
    if Reading(a.jobs[j].pc) {
      EndingKeepsTheNext(a, e, j);
    } else {
      assert PcOk(a, a.jobs[j].pc);
    }
  }

  lemma SettledFrom(a: Account, e: Event, j: nat)
    requires At(a, j) && Active(a.jobs[j].pc) && At(Step(a, e), j) && Step(a, e).jobs[j].pc.Settled?
    ensures Reading(a.jobs[j].pc) || (a.jobs[j].pc.Delay? && Step(a, e).next == a.next)
  {
    MovedByItsOwnEvent(a, e, j);
  }

  lemma EndingKeepsTheNext(a: Account, e: Event, j: nat)
    requires Inv(a) && Fair(a, e) && At(a, j) && Reading(a.jobs[j].pc)
    requires At(Step(a, e), j) && Step(a, e).jobs[j].pc.Settled?
    ensures LeftBy(a.jobs[j].pc.why, Threw(a.jobs[j].pc, e), Answer(a, a.jobs[j].pc, e), Step(a, e).next)
  {
    var pc := a.jobs[j].pc;
    assert PcOk(a, pc);
    MovedByItsOwnEvent(a, e, j);
    if e.FloorCleared? {
      EndingAfterClearing(a, e, j, pc.why);
    } else if e.FloorRead? {
      EndingAfterFloorRead(a, e, j, pc.why);
    } else {
      DeliverLeaves(a, j, pc.why, if e.PendingRead? then None else Some(Answer(a, pc, e)));
    }
  }

  /** Events that belong to no job. */
  predicate Jobless(e: Event) { e.Enqueue? || e.Tick? || e.Crash? || e.CacheReloaded? }

  /** The steps of a pending-nonce read. */
  predicate OfRead(e: Event) { e.PendingRead? || e.ChainId? || e.FloorRead? || e.BlockRead? || e.FloorCleared? }

  /** Nothing that happens to another job moves job j. */
  lemma OtherReadsLeaveItAlone(a: Account, e: Event, j: nat)
    requires At(a, j) && At(Step(a, e), j) && OfRead(e) && e.job != j
    ensures Step(a, e).jobs[j] == a.jobs[j]
  {
    if e.FloorCleared? {
      OtherClearingsLeaveItAlone(a, e, j);
    }
  }

  lemma OtherClearingsLeaveItAlone(a: Account, e: Event, j: nat)
    requires At(a, j) && e.FloorCleared? && e.job != j
    ensures At(Step(a, e), j) && Step(a, e).jobs[j] == a.jobs[j]
  {
    if At(a, e.job) && a.jobs[e.job].pc.ClearFloor? && CanEnd(a, e.outcome) {
      var pc := a.jobs[e.job].pc;
      DeliverMovesOne(
        AfterClearing(a, pc.observed, e.outcome), e.job, pc.why, ClearingGives(pc, e.outcome.Cleared?), j);
    }
  }

  lemma DeliverMovesOne(a: Account, i: nat, why: Why, r: Option<nat>, j: nat)
    requires At(a, i) && At(a, j) && i != j
    ensures At(Deliver(a, i, why, r), j) && Deliver(a, i, why, r).jobs[j] == a.jobs[j]
  {
  }

  lemma OthersLeaveItAlone(a: Account, e: Event, j: nat)
    requires At(a, j) && At(Step(a, e), j) && !OfRead(e) && (Jobless(e) || e.job != j)
    ensures Step(a, e).jobs[j] == a.jobs[j]
  {
  }

  lemma MovedByItsOwnEvent(a: Account, e: Event, j: nat)
    requires At(a, j) && At(Step(a, e), j) && Active(a.jobs[j].pc) && Step(a, e).jobs[j].pc != a.jobs[j].pc
    ensures !Jobless(e) && e.job == j
  {
    if OfRead(e) {
      if e.job != j {
        OtherReadsLeaveItAlone(a, e, j);
      }
    } else if Jobless(e) || e.job != j {
      OthersLeaveItAlone(a, e, j);
    }
  }

  lemma EndingAfterFloorRead(a: Account, e: Event, j: nat, why: Why)
    requires At(a, j) && a.jobs[j].pc.ReadFloor? && PcOk(a, a.jobs[j].pc) && a.jobs[j].pc.why == why
    requires e.FloorRead? && e.job == j && Step(a, e).jobs[j].pc.Settled?
    ensures LeftBy(why, Threw(a.jobs[j].pc, e), Answer(a, a.jobs[j].pc, e), Step(a, e).next)
  {
    DeliverLeaves(a, j, why, if e.ok then Some(Answer(a, a.jobs[j].pc, e)) else None);
  }

  lemma EndingAfterClearing(a: Account, e: Event, j: nat, why: Why)
    requires At(a, j) && a.jobs[j].pc.ClearFloor? && PcOk(a, a.jobs[j].pc) && a.jobs[j].pc.why == why
    requires e.FloorCleared? && e.job == j && Step(a, e).jobs[j].pc.Settled?
    ensures LeftBy(why, Threw(a.jobs[j].pc, e), Answer(a, a.jobs[j].pc, e), Step(a, e).next)
  {
    var pc := a.jobs[j].pc;
    DeliverLeaves(AfterClearing(a, pc.observed, e.outcome), j, why, ClearingGives(pc, e.outcome.Cleared?));
  }

  lemma DeliverLeaves(a: Account, j: nat, why: Why, r: Option<nat>)
    requires At(a, j) && WhyOk(a, why) && Deliver(a, j, why, r).jobs[j].pc.Settled?
    ensures var next := Deliver(a, j, why, r).next;
            match why
            case Fresh => r.None? && next.None?
            case AfterFailure(n) => next == Some(if r.None? then n + 1 else r.value)
            case AfterConsumed(n, _) => next == Some(if r.None? then n + 1 else Max(n + 1, r.value))
  {
  }

  /** A nonce that is handed out is the stored next one or, when none is stored,
      the one just read; and its successor is stored. */
  lemma IssuesAreExact(a: Account, e: Event, n: nat)
    requires Reached(a) && Fair(a, e) && Step(a, e).issued == a.issued + [n]
    ensures Step(a, e).next == Some(n + 1)
    ensures !Jobless(e) && At(a, e.job)
    ensures n == if e.Start? && a.next.Some? then a.next.value else Answer(a, a.jobs[e.job].pc, e)
  {
    ReachedIsInv(a);
    IssuedFrom(a, e, n);
  }

  lemma IssuedFrom(a: Account, e: Event, n: nat)
    requires Inv(a) && Fair(a, e) && Step(a, e).issued == a.issued + [n]
    ensures Step(a, e).next == Some(n + 1)
    ensures !Jobless(e) && At(a, e.job)
    ensures n == if e.Start? && a.next.Some? then a.next.value else Answer(a, a.jobs[e.job].pc, e)
  {
    assert (a.issued + [n])[|a.issued|] == n;
    OnlyReadsIssue(a, e);
    if OfRead(e) {
      assert PcOk(a, a.jobs[e.job].pc);
      ReadIssues(a, e, e.job, a.jobs[e.job].pc);
    }
  }

  /** The value that a read which hands out a nonce has come to. */
  lemma ReadIssues(a: Account, e: Event, j: nat, pc: Pc)
    requires OfRead(e) && e.job == j && At(a, j) && pc == a.jobs[j].pc && PcOk(a, pc) && Fair(a, e)
    requires Step(a, e).issued != a.issued
    ensures Step(a, e).issued == a.issued + [Answer(a, pc, e)] && Step(a, e).next == Some(Answer(a, pc, e) + 1)
  {
    match e
    case FloorRead(_, _) => DeliverIssues(a, j, pc.why, Some(Answer(a, pc, e)));
    case BlockRead(_, _) => DeliverIssues(a, j, pc.why, Some(Answer(a, pc, e)));
    case FloorCleared(_, outcome) =>
      DeliverIssues(AfterClearing(a, pc.observed, outcome), j, pc.why, ClearingGives(pc, outcome.Cleared?));
    case _ =>
  }

  lemma OnlyReadsIssue(a: Account, e: Event)
    requires Step(a, e).issued != a.issued
    ensures (OfRead(e) || e.Start?) && At(a, e.job) && (e.FloorCleared? ==> a.jobs[e.job].pc.ClearFloor?)
  {
  }

  lemma DeliverIssues(a: Account, j: nat, why: Why, r: Option<nat>)
    requires At(a, j) && Deliver(a, j, why, r).issued != a.issued
    ensures r.Some? && Deliver(a, j, why, r).issued == a.issued + [r.value]
    ensures Deliver(a, j, why, r).next == Some(r.value + 1)
  {
  }

  /** A floor that is used when a pending nonce is delivered is ahead of all
      pending reads and was not seen to have expired, with one exception: the block
      number had passed it and clearing it failed. */
  lemma UsedFloorsAreAhead(a: Account, e: Event, j: nat, t: Account)
    requires Reached(a) && Fair(a, e) && At(a, j) && Reading(a.jobs[j].pc) && !Threw(a.jobs[j].pc, e)
    requires t == Step(a, e) && At(t, j) && !Reading(t.jobs[j].pc)
    requires Weighed(a, a.jobs[j].pc).Some? && !(e.FloorCleared? && e.outcome.Cleared?)
    ensures Ahead(a, a.jobs[j].pc, e, Weighed(a, a.jobs[j].pc).value)
  {
    ReachedIsInv(a);
    DeliveryUsesFloorsAhead(a, e, j, t);
  }

  predicate Ahead(a: Account, pc: Pc, e: Event, f: Floor) {
    && a.seen < f.next
    && (e.FloorRead? && f.expiresAtMs.Some? ==> a.now < f.expiresAtMs.value)
    && (e.BlockRead? && e.block.Some? && f.expiresAtBlock.Some? ==> e.block.value <= f.expiresAtBlock.value)
    && (e.FloorCleared? ==> pc.ClearFloor? && pc.byBlock)
  }

  lemma DeliveryUsesFloorsAhead(a: Account, e: Event, j: nat, t: Account)
    requires Inv(a) && Fair(a, e) && At(a, j) && Reading(a.jobs[j].pc) && !Threw(a.jobs[j].pc, e)
    requires t == Step(a, e) && At(t, j) && !Reading(t.jobs[j].pc)
    requires Weighed(a, a.jobs[j].pc).Some? && !(e.FloorCleared? && e.outcome.Cleared?)
    ensures Ahead(a, a.jobs[j].pc, e, Weighed(a, a.jobs[j].pc).value)
  {
    assert PcOk(a, a.jobs[j].pc);
    MovedByItsOwnEvent(a, e, j);
  }

  /** What the cache may show beside the disk: nothing, of a floor that a clearing
      has given up or the provider has caught up with; or a floor not below the one
      on disk, left by a mark that was not written. */
  lemma TheCacheErrsOnFailedWritesOnly(a: Account)
    requires Reached(a) && Shown(a) != a.floor
    ensures a.cache.Unwritten?
    ensures Shown(a).None? ==> a.lapse.GivenUp? || a.floor.value.next <= a.seen
    ensures Shown(a).Some? && a.floor.Some? ==> a.floor.value.next <= Shown(a).value.next
  {
    ReachedIsInv(a);
  }

  /** Within one process a floor on disk comes to be given up in one way only: its
      clearing deleted it in memory, ahead of the provider, and was not written. */
  lemma OnlyUnwrittenClearingsLapse(a: Account, e: Event)
    requires !a.lapse.GivenUp? && Step(a, e).lapse.GivenUp?
    ensures e.FloorCleared? && e.outcome.NotWritten? && At(a, e.job) && a.jobs[e.job].pc.ClearFloor?
    ensures a.floor.Some? && a.jobs[e.job].pc.observed < a.floor.value.next
  {
    if e.FloorCleared? && At(a, e.job) && a.jobs[e.job].pc.ClearFloor? && CanEnd(a, e.outcome) {
      var pc := a.jobs[e.job].pc;
      DeliverKeepsTheStore(
        AfterClearing(a, pc.observed, e.outcome), e.job, pc.why, ClearingGives(pc, e.outcome.Cleared?));
    }
  }

  /** A clearing is under way only for a floor that is due: the one whose failure
      is caught for a floor whose block has passed, any other for a floor that the
      provider has caught up with or whose time is up. That floor is not below the
      one on disk. */
  lemma ClearingsAreDue(a: Account, j: nat)
    requires Reached(a) && At(a, j) && a.jobs[j].pc.ClearFloor?
    ensures var pc := a.jobs[j].pc;
            && pc.observed == a.seen && DueToBeCleared(a, pc.observed, pc.floor, pc.byBlock)
            && (a.floor.Some? ==> a.floor.value.next <= pc.floor.next)
  {
    ReachedIsInv(a);
    assert PcOk(a, a.jobs[j].pc);
  }

  /** A restarted process has nothing but the disk: it goes by the floor that is
      there, whatever the process before it had given up. */
  lemma RestartsGoByTheDisk(a: Account)
    requires Reached(a)
    ensures var t := Step(a, Crash);
            && Reached(t) && t.jobs == [] && t.next.None? && t.tail.None?
            && t.floor == a.floor == Shown(t) && t.guarded == a.guarded
            && !t.lapse.GivenUp? && (a.lapse.Upheld? ==> t.lapse.Upheld?)
  {
    ReachedStep(a, Crash, Step(a, Crash));
  }

  /** A mark puts the job's own floor on disk, with its own expiry and upheld, exactly
      when no higher one is there. A higher one can only be there when a clearing of this
      process has given it up and failed to write. */
  lemma MarksInstallTheirOwnFloor(a: Account, j: nat, expiresAtMs: Option<nat>, expiresAtBlock: Option<nat>)
    requires Reached(a) && At(a, j) && a.jobs[j].pc.Body?
    ensures var f := Floor(a.jobs[j].pc.nonce + 1, expiresAtMs, expiresAtBlock);
            && (Step(a, MarkFloor(j, expiresAtMs, expiresAtBlock)).floor == Some(f) <==> !Keeps(a.floor, f.next))
            && (!Keeps(a.floor, f.next) ==> Step(a, MarkFloor(j, expiresAtMs, expiresAtBlock)).lapse.Upheld?)
            && (Keeps(a.floor, f.next) ==> a.lapse.GivenUp?)
  {
    ReachedIsInv(a);
    assert PcOk(a, a.jobs[j].pc);
    MarkIsKept(a, j, expiresAtMs, expiresAtBlock);
  }

  lemma MarkIsKept(a: Account, j: nat, expiresAtMs: Option<nat>, expiresAtBlock: Option<nat>)
    requires At(a, j) && a.jobs[j].pc.Body?
    ensures var f := Floor(a.jobs[j].pc.nonce + 1, expiresAtMs, expiresAtBlock);
            && Step(a, MarkFloor(j, expiresAtMs, expiresAtBlock)).floor == Some(RaiseFloor(a.floor, f))
            && (!Keeps(a.floor, f.next) ==> Step(a, MarkFloor(j, expiresAtMs, expiresAtBlock)).lapse.Upheld?)
  {
  }

  /** Serialisation: a job has left the queue only when every earlier one is
      settled, and a queued job can start exactly when they all are, however
      they ended. An absent map entry means that nothing is pending. While a
      transaction function runs, and in the pause after it, the stored next nonce
      is the one after its own. */
  lemma JobsRunOneAtATimeInOrder(a: Account, j: nat)
    requires Reached(a) && At(a, j)
    ensures !a.jobs[j].pc.Queued? ==> forall i :: 0 <= i < j ==> a.jobs[i].pc.Settled?
    ensures Active(a.jobs[j].pc) ==> forall i :: 0 <= i < |a.jobs| && i != j ==> !Active(a.jobs[i].pc)
    ensures CanStart(a, j) <==> a.jobs[j].pc.Queued? && forall i :: 0 <= i < j ==> a.jobs[i].pc.Settled?
    ensures a.tail.None? ==> a.jobs[j].pc.Settled?
    ensures a.jobs[j].pc.Body? || a.jobs[j].pc.Delay? ==> a.next == Some(a.jobs[j].pc.nonce + 1)
  {
    ReachedIsInv(a);
    assert PcOk(a, a.jobs[j].pc);
    if Active(a.jobs[j].pc) || CanStart(a, j) {
      ActiveIsRunning(a, j);
    }
  }

  // ------------------------------------------- what the assumptions are for

  /** When the chain id cannot be read the floor is skipped. The value returned is
      then above every accepted nonce when no floor on disk stands above it, and,
      unless that floor has been given up, only then. */
  lemma WithoutChainIdTheFloorIsSkipped(a: Account, j: nat)
    requires Reached(a) && At(a, j) && a.jobs[j].pc.ReadChainId?
    ensures var v := a.jobs[j].pc.observed;
            && (a.floor.None? || v >= a.floor.value.next ==> forall n :: n in a.guarded ==> n < v)
            && (a.lapse.Upheld? ==>
                  ((forall n :: n in a.guarded ==> n < v) <==> a.floor.None? || v >= a.floor.value.next))
  {
    ReachedIsInv(a);
    assert PcOk(a, a.jobs[j].pc);
  }

  /** After a restart, with the process memory gone, a new job asks the readers. */
  lemma RestartAndStart(a: Account) returns (t: Account)
    requires Reached(a)
    ensures Reached(t) && t == Step(a, Crash).(jobs := [Job(None, ReadPending(Fresh))], tail := Some(0))
  {
    var a1 := Step(a, Crash);
    ReachedStep(a, Crash, a1);
    t := StartFresh(a1);
  }

  /** A new job with nothing before it and no nonce stored. */
  lemma StartFresh(a: Account) returns (t: Account)
    requires Reached(a) && a.jobs == [] && a.next.None? && a.tail.None?
    ensures Reached(t) && t == a.(jobs := [Job(None, ReadPending(Fresh))], tail := Some(0))
  {
    var queued := a.(jobs := [Job(None, Queued)], tail := Some(0));
    ReachedStep(a, Enqueue, queued);
    t := SetPc(queued, 0, ReadPending(Fresh));
    ReachedStep(queued, Start(0), t);
  }

  /** The reads before the floor, with v as the only answer. */
  lemma ReadsUpToTheFloor(a: Account, v: nat) returns (t: Account)
    requires Reached(a) && a.seen <= v && At(a, 0) && a.jobs[0].pc == ReadPending(Fresh)
    ensures Reached(t) && t == SetPc(a, 0, ReadFloor(Fresh, v)).(seen := v)
  {
    var a1 := Reads(a, v);
    t := SetPc(a1, 0, ReadFloor(Fresh, v));
    ReachedStep(a1, ChainId(0, true), t);
  }

  lemma Reads(a: Account, v: nat) returns (t: Account)
    requires Reached(a) && a.seen <= v && At(a, 0) && a.jobs[0].pc == ReadPending(Fresh)
    ensures Reached(t) && t == SetPc(a, 0, ReadChainId(Fresh, v)).(seen := v)
  {
    assert Highest([v]) == v;
    t := SetPc(a, 0, ReadChainId(Fresh, v)).(seen := v);
    ReachedStep(a, PendingRead(0, [v]), t);
  }

  /** A first job that has been handed nonce v. */
  lemma FirstJobHasNonce(v: nat) returns (a: Account)
    ensures Reached(a)
    ensures a == INITIAL.(next := Some(v + 1), jobs := [Job(None, Body(v))], tail := Some(0), seen := v, issued := [v])
  {
    assert ReachedIn(0, INITIAL);
    var a1 := StartFresh(INITIAL);
    var a2 := ReadsUpToTheFloor(a1, v);
    a := Issue(a2, 0, v);
    ReachedStep(a2, FloorRead(0, true), a);
  }

  /** The first job's nonce v is accepted privately and its floor written. */
  lemma FirstJobIsMarked(v: nat, expiresAtMs: Option<nat>) returns (a: Account)
    ensures Reached(a)
    ensures a == INITIAL.(next := Some(v + 1), jobs := [Job(None, Body(v))], tail := Some(0), seen := v, issued := [v],
                          floor := Some(Floor(v + 1, expiresAtMs, None)), guarded := {v})
  {
    var first := FirstJobHasNonce(v);
    a := Marked(first, v, Floor(v + 1, expiresAtMs, None));
    ReachedStep(first, MarkFloor(0, expiresAtMs, None), a);
  }

  /** Nonce 5 is accepted privately and its floor written; after a restart the
      chain id cannot be read, and 5 is handed out again. */
  lemma ChainIdFailureReissues() returns (a: Account)
    ensures Reached(a) && 5 in a.guarded
    ensures var t := Step(a, ChainId(0, false)); t.issued == a.issued + [5] && t.guarded == a.guarded
  {
    var marked := FirstJobIsMarked(5, None);
    var restarted := RestartAndStart(marked);
    a := Reads(restarted, 5);
    WithoutChainIdTheReadIsIssued(a, 5);
  }

  lemma WithoutChainIdTheReadIsIssued(a: Account, v: nat)
    requires At(a, 0) && a.jobs[0].pc == ReadChainId(Fresh, v)
    ensures var t := Step(a, ChainId(0, false)); t.issued == a.issued + [v] && t.guarded == a.guarded
  {
  }

  lemma FirstJobIsAccepted(v: nat) returns (a: Account)
    ensures Reached(a)
    ensures a == INITIAL.(next := Some(v + 1), jobs := [Job(None, Body(v))], tail := Some(0), seen := v + 1,
                          issued := [v], guarded := {v})
  {
    var first := FirstJobHasNonce(v);
    a := first.(seen := v + 1, guarded := {v});
    ReachedStep(first, PublicAccept(0), a);
  }

  /** Nonce 5 is accepted publicly; after a restart the reader still answers 5,
      and 5 is handed out again. */
  lemma StalePendingReadReissues() returns (a: Account)
    ensures Reached(a) && 5 in a.guarded && At(a, 0) && a.jobs[0].pc == ReadPending(Fresh)
    ensures var t := Step(Step(Step(a, PendingRead(0, [5])), ChainId(0, true)), FloorRead(0, true));
            t.issued == a.issued + [5] && t.guarded == a.guarded
  {
    var accepted := FirstJobIsAccepted(5);
    a := RestartAndStart(accepted);
    WithoutFloorTheReadIsIssued(a, 5);
  }

  lemma WithoutFloorTheReadIsIssued(a: Account, v: nat)
    requires At(a, 0) && a.jobs[0].pc == ReadPending(Fresh) && v <= a.seen && Shown(a).None?
    ensures var t := Step(Step(Step(a, PendingRead(0, [v])), ChainId(0, true)), FloorRead(0, true));
            t.issued == a.issued + [v] && t.guarded == a.guarded
  {
    assert Highest([v]) == v;
    var read := SetPc(a, 0, ReadChainId(Fresh, v));
    assert Step(a, PendingRead(0, [v])) == read;
    assert Step(read, ChainId(0, true)) == SetPc(read, 0, ReadFloor(Fresh, v));
  }

  /** A restarted process finds its floor expired at time 10, and the clearing fails
      at the write: the job settles without a nonce, the floor stays on disk, and
      the cache no longer shows it. */
  lemma ExpiredFloorIsHidden(a: Account, v: nat) returns (hidden: Account)
    requires Reached(a) && a.seen == v && a.now == 0
    requires a.floor.Some? && a.floor.value.expiresAtMs == Some(10) && v < a.floor.value.next
    ensures Reached(hidden)
    ensures hidden == a.(next := None, jobs := [Job(None, Settled)], tail := Some(0), now := 10,
                         cache := Unwritten(None), lapse := GivenUp, guarded := StillGuarded(a, v))
  {
    var restarted := RestartAndStart(a);
    var reading := ReadsUpToTheFloor(restarted, v);
    hidden := LateClearingFails(reading, v);
  }

  lemma LateClearingFails(a: Account, v: nat) returns (hidden: Account)
    requires Reached(a) && a.now == 0 && a.jobs == [Job(None, ReadFloor(Fresh, v))] && a.cache.Current?
    requires a.floor.Some? && a.floor.value.expiresAtMs == Some(10) && v < a.floor.value.next
    ensures Reached(hidden)
    ensures hidden == a.(jobs := [Job(None, Settled)], now := 10,
                         cache := Unwritten(None), lapse := GivenUp, guarded := StillGuarded(a, v))
  {
    var late := a.(now := 10);
    ReachedStep(a, Tick(10), late);
    var clearing := SetPc(late, 0, ClearFloor(Fresh, v, a.floor.value, false));
    ReachedStep(late, FloorRead(0, true), clearing);
    hidden := SetPc(HideFloor(clearing, v), 0, Settled);
    ReachedStep(clearing, FloorCleared(0, NotWritten), hidden);
  }

  /** The next job of that process is handed v again, with the floor on disk above it. */
  lemma HiddenFloorIsSkipped(a: Account, v: nat) returns (t: Account)
    requires Reached(a) && a.seen == v && a.next.None? && a.jobs == [Job(None, Settled)] && a.tail == Some(0)
    requires a.cache == Unwritten(None)
    ensures Reached(t) && t.issued == a.issued + [v] && t.jobs == [Job(None, Settled), Job(Some(0), Body(v))]
    ensures t == a.(next := Some(v + 1), jobs := t.jobs, tail := Some(1), issued := t.issued)
  {
    var queued := a.(jobs := [Job(None, Settled), Job(Some(0), Queued)], tail := Some(1));
    ReachedStep(a, Enqueue, queued);
    var asking := SetPc(queued, 1, ReadPending(Fresh));
    ReachedStep(queued, Start(1), asking);
    t := SecondJobReads(asking, v);
  }

  lemma SecondJobReads(a: Account, v: nat) returns (t: Account)
    requires Reached(a) && a.seen == v && At(a, 1) && a.jobs[1].pc == ReadPending(Fresh) && Shown(a).None?
    ensures Reached(t) && t == Issue(a, 1, v)
  {
    assert Highest([v]) == v;
    var read := SetPc(a, 1, ReadChainId(Fresh, v));
    ReachedStep(a, PendingRead(1, [v]), read);
    var weighing := SetPc(a, 1, ReadFloor(Fresh, v));
    ReachedStep(read, ChainId(1, true), weighing);
    t := Issue(a, 1, v);
    ReachedStep(weighing, FloorRead(1, true), t);
  }

  /** A failed write is enough to hand an accepted nonce out again: 5 is accepted
      privately, its floor expires, the clearing fails at the write, and the next
      job gets 5 while floor 6 is on disk. */
  lemma UnwrittenClearingReissues() returns (a: Account, t: Account)
    ensures Reached(a) && 5 in a.guarded && Reached(t) && t.issued == a.issued + [5]
    ensures t.floor == a.floor == Some(Floor(6, Some(10), None)) && t.next == Some(6) && t.lapse.GivenUp?
  {
    a := FirstJobIsMarked(5, Some(10));
    var hidden := ExpiredFloorIsHidden(a, 5);
    t := HiddenFloorIsSkipped(hidden, 5);
  }

  /** And it can shorten the life of a later floor: with floor 2 given up like
      that, nonce 0 is accepted and marked to stand until 100, but the disk keeps
      the old floor, which expired at 10. */
  lemma UnwrittenClearingOutlivesAMark() returns (a: Account)
    ensures Reached(a) && At(a, 1) && a.jobs[1].pc == Body(0) && a.now == 10
    ensures var t := Step(a, MarkFloor(1, Some(100), None));
            0 in t.guarded && t.floor == Some(Floor(2, Some(10), None)) && Expired(t, t.floor.value)
  {
    var second := SecondJobHasNonceOne();
    var marked := Marked(second, 1, Floor(2, Some(10), None));
    ReachedStep(second, MarkFloor(1, Some(10), None), marked);
    var hidden := ExpiredFloorIsHidden(marked, 0);
    a := HiddenFloorIsSkipped(hidden, 0);
  }

  lemma SecondJobHasNonceOne() returns (a: Account)
    ensures Reached(a)
    ensures a == INITIAL.(next := Some(2), jobs := [Job(None, Settled), Job(Some(0), Body(1))], tail := Some(1),
                          issued := [0, 1])
  {
    var settled := FirstJobIsOver();
    var queued := settled.(jobs := [Job(None, Settled), Job(Some(0), Queued)], tail := Some(1));
    ReachedStep(settled, Enqueue, queued);
    a := Issue(queued, 1, 1);
    ReachedStep(queued, Start(1), a);
  }

  lemma FirstJobIsOver() returns (a: Account)
    ensures Reached(a)
    ensures a == INITIAL.(next := Some(1), jobs := [Job(None, Settled)], tail := Some(0), issued := [0])
  {
    var first := FirstJobHasNonce(0);
    var pausing := SetPc(first, 0, Delay(0));
    ReachedStep(first, BodyReturns(0), pausing);
    a := SetPc(pausing, 0, Settled);
    ReachedStep(pausing, DelayOver(0), a);
  }

  /** The floor that the cache shows stands: neither the clock nor the block number
      seen is past it. */
  predicate Standing(a: Account, block: Option<nat>) {
    Shown(a).Some? ==>
      && (Shown(a).value.expiresAtMs.Some? ==> a.now < Shown(a).value.expiresAtMs.value)
      && (block.Some? && Shown(a).value.expiresAtBlock.Some? ==> block.value <= Shown(a).value.expiresAtBlock.value)
  }

  /** A fresh read by job j in which the best answer is v and all else goes well. */
  function ReadFresh(a: Account, j: nat, v: nat, block: Option<nat>): Account {
    var weighed := Step(Step(Step(a, PendingRead(j, [v])), ChainId(j, true)), FloorRead(j, true));
    Step(Step(weighed, BlockRead(j, block)), FloorCleared(j, Cleared))
  }

  function FloorNext(floor: Option<Floor>): nat { if floor.Some? then floor.value.next else 0 }

  /** h is the highest accepted nonce that the floor does not cover. */
  ghost predicate HighestUncovered(a: Account, h: nat) {
    && h in a.guarded && h >= FloorNext(Shown(a))
    && forall n :: n in a.guarded ==> n < FloorNext(Shown(a)) || n <= h
  }

  /** Whatever pending nonce v the readers answer, old or new, what is handed out
      while the shown floor stands is the larger of v and that floor. Where the
      floor covers every accepted nonce no answer does harm; otherwise an answer is
      harmless exactly when it is above the highest nonce not covered. */
  lemma WhenAnyAnswerIsHarmless(a: Account, j: nat, v: nat, block: Option<nat>)
    requires Reached(a) && At(a, j) && a.jobs[j].pc == ReadPending(Fresh) && Standing(a, block)
    ensures var t := ReadFresh(a, j, v, block);
            && t.issued == a.issued + [Max(v, FloorNext(Shown(a)))]
            && ((forall n :: n in a.guarded ==> n < FloorNext(Shown(a))) ==>
                  forall n :: n in a.guarded ==> n < t.issued[|a.issued|])
            && forall h: nat :: HighestUncovered(a, h) ==>
                 ((forall n :: n in a.guarded ==> n < t.issued[|a.issued|]) <==> v > h)
  {
    assert Highest([v]) == v;
    var read := Step(Step(a, PendingRead(j, [v])), ChainId(j, true));
    assert read == SetPc(a, j, ReadFloor(Fresh, v)).(seen := Max(a.seen, v));
    WeighingIssues(read, j, v, block);
  }

  lemma WeighingIssues(a: Account, j: nat, v: nat, block: Option<nat>)
    requires At(a, j) && a.jobs[j].pc == ReadFloor(Fresh, v) && Standing(a, block)
    ensures Step(Step(Step(a, FloorRead(j, true)), BlockRead(j, block)), FloorCleared(j, Cleared)).issued
         == a.issued + [Max(v, FloorNext(Shown(a)))]
  {
    var weighed := Step(a, FloorRead(j, true));
    if Shown(a).Some? && v >= Shown(a).value.next {
      assert Step(weighed, BlockRead(j, block)) == weighed;
    } else if Shown(a).Some? && Shown(a).value.expiresAtBlock.Some? {
      var used := Step(weighed, BlockRead(j, block));
      assert used.jobs[j].pc.Body?;
    } else {
      assert weighed.jobs[j].pc.Body?;
    }
  }
}
