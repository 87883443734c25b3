/** The tracker of all addresses: its maps, its methods and the callbacks of its
    awaits. Every method moves one address exactly as NonceMachine says and
    leaves the others alone. */
module NonceTracker {
  import opened Wrappers
  import opened NonceMachine

  // ------------------------------------------------------------ many addresses

  /** One step of the process: something happens to one address, or the clock
      moves or the process dies for all of them. */
  datatype Happening = On(address: string, event: Event) | Everywhere(event: Event)

  /** The accounts of all addresses; `rest` is the one of every address not met yet. */
  datatype Accounts = Accounts(met: map<string, Account>, rest: Account)

  function Of(all: Accounts, address: string): Account {
    if address in all.met then all.met[address] else all.rest
  }

  function Happen(all: Accounts, h: Happening): Accounts {
    match h
    case On(address, e) => all.(met := all.met[address := Step(Of(all, address), e)])
    case Everywhere(e) => Accounts(map address | address in all.met :: Step(all.met[address], e), Step(all.rest, e))
  }

  function HappenAll(all: Accounts, hs: seq<Happening>): Accounts {
    if hs == [] then all else Happen(HappenAll(all, hs[..|hs| - 1]), hs[|hs| - 1])
  }

  /** What a run has in it for one address. */
  function Concerning(address: string, hs: seq<Happening>): seq<Event> {
    if hs == [] then []
    else
      var front, last := Concerning(address, hs[..|hs| - 1]), hs[|hs| - 1];
      if Concerns(last, address) then front + [last.event] else front
  }

  predicate Concerns(h: Happening, address: string) { h.Everywhere? || h.address == address }

  lemma HappeningsAreLocal(all: Accounts, h: Happening, address: string)
    ensures Of(Happen(all, h), address) ==
              if Concerns(h, address) then Step(Of(all, address), h.event) else Of(all, address)
  {
  }

  /** However the jobs of different addresses interleave, each address ends as
      if it had been alone. */
  lemma {:induction false} AddressesDoNotInterfere(all: Accounts, hs: seq<Happening>, address: string)
    ensures Of(HappenAll(all, hs), address) == StepAll(Of(all, address), Concerning(address, hs))
  {
    if hs != [] {
      var n := |hs| - 1;
      AddressesDoNotInterfere(all, hs[..n], address);
      HappeningsAreLocal(HappenAll(all, hs[..n]), hs[n], address);
      if Concerns(hs[n], address) {
        StepAllSnoc(Of(all, address), Concerning(address, hs[..n]), hs[n].event);
      }
    }
  }

  lemma StepAllSnoc(a: Account, es: seq<Event>, e: Event)
    ensures StepAll(a, es + [e]) == Step(StepAll(a, es), e)
  {
    assert (es + [e])[..|es|] == es;
  }

  /** In a run over many addresses, each address stays within the states that
      the single-address theorems are about. */
  lemma {:induction false} EveryAddressIsReached(hs: seq<Happening>, address: string)
    requires FairRun(INITIAL, Concerning(address, hs))
    ensures Reached(Of(HappenAll(Accounts(map[], INITIAL), hs), address))
  {
    AddressesDoNotInterfere(Accounts(map[], INITIAL), hs, address);
    assert ReachedIn(0, INITIAL);
    FairRunsReach(INITIAL, Concerning(address, hs));
  }

  // -------------------------------------------------------------- nonce readers

  /** The readers known already, then each new one at its first mention. */
  function Merged(existing: seq<string>, signers: seq<string>): seq<string> {
    if signers == [] then existing
    else
      var front, last := Merged(existing, signers[..|signers| - 1]), signers[|signers| - 1];
      if last in front then front else front + [last]
  }

  ghost predicate NoRepeats(s: seq<string>) {
    forall i, j :: 0 <= i < j < |s| ==> s[i] != s[j]
  }

  /** Registering never drops or reorders a reader and never lists one twice. */
  lemma {:induction false} RegisteringAddsEachReaderOnce(existing: seq<string>, signers: seq<string>)
    requires NoRepeats(existing)
    ensures NoRepeats(Merged(existing, signers)) && existing <= Merged(existing, signers)
    ensures forall r :: r in Merged(existing, signers) <==> r in existing || r in signers
  {
    if signers != [] {
      var n := |signers| - 1;
      RegisteringAddsEachReaderOnce(existing, signers[..n]);
      assert signers == signers[..n] + [signers[n]];
    }
  }

  /** One reader's reply, a failed or timed-out one as -1. */
  function ReplyValue(reply: Option<nat>): int {
    match reply
    case None => -1
    case Some(n) => n
  }

  function Answers(replies: seq<Option<nat>>): seq<int> {
    seq(|replies|, i requires 0 <= i < |replies| => ReplyValue(replies[i]))
  }

  /** The highest answer is an upper bound that some reader gave; it is negative
      exactly when no reader answered. */
  lemma {:induction false} HighestIsTheMaximum(values: seq<int>)
    requires forall i :: 0 <= i < |values| ==> values[i] >= -1
    ensures forall v :: v in values ==> v <= Highest(values)
    ensures Highest(values) == -1 || Highest(values) in values
    ensures Highest(values) < 0 <==> forall v :: v in values ==> v == -1
  {
    if values != [] {
      HighestIsTheMaximum(values[1..]);
      assert values == [values[0]] + values[1..];
    }
  }

  /** Appending an answer. */
  lemma {:induction false} HighestSnoc(values: seq<int>, v: int)
    requires v >= -1
    ensures Highest(values + [v]) == if v > Highest(values) then v else Highest(values)
  {
    if values == [] {
      assert [v][1..] == [];
    } else {
      HighestSnoc(values[1..], v);
      assert (values + [v])[1..] == values[1..] + [v];
    }
  }

  /** What the tracker does not hold itself: the durable store, as this address
      sees it, and the history. */
  datatype World = World(
    cache: Cache, floor: Option<Floor>, lapse: Lapse, seen: nat, block: nat, issued: seq<nat>, guarded: set<nat>)

  class Tracker {
    var nonces: map<string, nat>
    var queues: map<string, nat>
    var nonceReaders: map<string, seq<string>>
    var jobs: map<string, seq<Job>>               // the promises and what each waits for
    var now: nat
    ghost var worlds: map<string, World>

    ghost function WorldOf(address: string): World
      reads this
    {
      if address in worlds then worlds[address] else World(Current, None, Upheld, 0, 0, [], {})
    }

    function JobsOf(address: string): seq<Job>
      reads this
    {
      if address in jobs then jobs[address] else []
    }

    function Get(m: map<string, nat>, address: string): Option<nat> {
      if address in m then Some(m[address]) else None
    }

    /** The account of one address. */
    ghost function View(address: string): Account
      reads this
    {
      var w := WorldOf(address);
      Account(Get(nonces, address), JobsOf(address), Get(queues, address), w.cache, w.floor, w.lapse,
              w.seen, now, w.block, w.issued, w.guarded)
    }

    twostate predicate OthersUnchanged(address: string)
      reads this
    {
      nonceReaders == old(nonceReaders) && forall other :: other != address ==> View(other) == old(View(other))
    }

    predicate Waiting(address: string, j: nat)
      reads this
    {
      j < |JobsOf(address)|
    }

    function PcOf(address: string, j: nat): Pc
      requires Waiting(address, j)
      reads this
    {
      JobsOf(address)[j].pc
    }

    constructor ()
      ensures forall address :: View(address) == INITIAL
      ensures nonceReaders == map[]
    {
      nonces, queues, nonceReaders, jobs := map[], map[], map[], map[];
      now := 0;
      worlds := map[];
    }

    method RegisterNonceReaders(address: string, signers: seq<string>)
      modifies this`nonceReaders
      ensures var before := old(nonceReaders);
              nonceReaders == before[address := Merged(if address in before then before[address] else [], signers)]
    {
      var existing := if address in nonceReaders then nonceReaders[address] else [];
      var merged := existing;
      for i := 0 to |signers|
        invariant merged == Merged(existing, signers[..i])
      {
        assert signers[..i + 1][..i] == signers[..i];
        if signers[i] !in merged {
          merged := merged + [signers[i]];
        }
      }
      assert signers[..|signers|] == signers;
      nonceReaders := nonceReaders[address := merged];
    }

    method Await(address: string, j: nat, pc: Pc)
      requires Waiting(address, j)
      modifies this`jobs
      ensures View(address) == SetPc(old(View(address)), j, pc) && OthersUnchanged(address)
    {
      var mine := jobs[address];
      jobs := jobs[address := mine[j := mine[j].(pc := pc)]];
    }

    /** queueTransaction up to its return: chain a job to the current tail. */
    method QueueTransaction(address: string) returns (j: nat)
      modifies this`jobs, this`queues
      ensures j == |old(JobsOf(address))|
      ensures View(address) == Step(old(View(address)), Enqueue) && OthersUnchanged(address)
    {
      var previous := Get(queues, address);
      var mine := JobsOf(address);
      j := |mine|;
      jobs := jobs[address := mine + [Job(previous, Queued)]];
      queues := queues[address := j];
    }

    /** The job's body runs once the promise before it has settled. */
    method StartJob(address: string, j: nat)
      requires CanStart(View(address), j)
      modifies this`jobs, this`nonces, this`worlds
      ensures View(address) == Step(old(View(address)), Start(j)) && OthersUnchanged(address)
    {
      if address !in nonces {
        Await(address, j, ReadPending(Fresh));
      } else {
        UseStoredNonce(address, j);
      }
    }

    /** getNonce could not learn its signer's address: the job ends without a nonce. */
    method JobAddressFailed(address: string, j: nat)
      requires CanStart(View(address), j)
      modifies this`jobs
      ensures View(address) == Step(old(View(address)), AddressFails(j)) && OthersUnchanged(address)
    {
      Await(address, j, Settled);
    }

    /** The rest of getNonce: hand out the stored nonce and store the next. */
    method UseStoredNonce(address: string, j: nat)
      requires Waiting(address, j) && address in nonces
      modifies this`jobs, this`nonces, this`worlds
      ensures View(address) == Issue(old(View(address)), j, old(nonces)[address]) && OthersUnchanged(address)
    {
      var currentNonce := nonces[address];
      nonces := nonces[address := currentNonce + 1];
      worlds := worlds[address := WorldOf(address).(issued := WorldOf(address).issued + [currentNonce])];
      Await(address, j, Body(currentNonce));
    }

    /** The replies of all readers are in: take the highest. */
    method PendingNoncesRead(address: string, j: nat, replies: seq<Option<nat>>)
      requires Waiting(address, j) && PcOf(address, j).ReadPending?
      requires |replies| == if address in nonceReaders then |nonceReaders[address]| else 1
      modifies this`jobs, this`nonces, this`worlds
      ensures View(address) == Step(old(View(address)), PendingRead(j, Answers(replies))) && OthersUnchanged(address)
    {
      var latestNonce := MaxReply(replies);
      var why := PcOf(address, j).why;
      if latestNonce < 0 {
        PendingNonceResolved(address, j, why, None);
      } else {
        worlds := worlds[address := WorldOf(address).(seen := NonceMachine.Max(WorldOf(address).seen, latestNonce))];
        Await(address, j, ReadChainId(why, latestNonce));
      }
    }

    static method MaxReply(replies: seq<Option<nat>>) returns (latest: int)
      ensures latest == Highest(Answers(replies))
    {
      latest := -1;
      for i := 0 to |replies|
        invariant latest == Highest(Answers(replies)[..i])
      {
        var value := ReplyValue(replies[i]);
        assert Answers(replies)[..i + 1] == Answers(replies)[..i] + [value];
        HighestSnoc(Answers(replies)[..i], value);
        if value > latest {
          latest := value;
        }
      }
      assert Answers(replies)[..|replies|] == Answers(replies);
    }

    /** applyDurableNonceFloor after its getChainId. */
    method ChainIdRead(address: string, j: nat, ok: bool)
      requires Waiting(address, j) && PcOf(address, j).ReadChainId?
      modifies this`jobs, this`nonces, this`worlds
      ensures View(address) == Step(old(View(address)), ChainId(j, ok)) && OthersUnchanged(address)
    {
      var pc := PcOf(address, j);
      if ok {
        Await(address, j, ReadFloor(pc.why, pc.observed));
      } else {
        PendingNonceResolved(address, j, pc.why, Some(pc.observed));
      }
    }

    /** applyDurableNonceFloor after its getDurableNonceFloor, which answers what the
        store's cache shows. */
    method DurableFloorRead(address: string, j: nat, durableFloor: Result<Option<Floor>, ()>)
      requires Waiting(address, j) && PcOf(address, j).ReadFloor?
      requires durableFloor.Ok? ==> durableFloor.value == Shown(View(address))
      modifies this`jobs, this`nonces, this`worlds
      ensures View(address) == Step(old(View(address)), FloorRead(j, durableFloor.Ok?)) && OthersUnchanged(address)
    {
      var pc := PcOf(address, j);
      if durableFloor.Err? {
        PendingNonceResolved(address, j, pc.why, None);
      } else if durableFloor.value.None? {
        PendingNonceResolved(address, j, pc.why, Some(pc.observed));
      } else {
        var f := durableFloor.value.value;
        if pc.observed >= f.next {
          Await(address, j, ClearFloor(pc.why, pc.observed, f, false));
        } else if f.expiresAtMs.Some? && now >= f.expiresAtMs.value {
          Await(address, j, ClearFloor(pc.why, pc.observed, f, false));
        } else if f.expiresAtBlock.Some? {
          Await(address, j, ReadBlock(pc.why, pc.observed, f));
        } else {
          PendingNonceResolved(address, j, pc.why, Some(f.next));
        }
      }
    }

    /** applyDurableNonceFloor after its getBlockNumber; None when that failed or
        the signer has no provider. */
    method BlockNumberRead(address: string, j: nat, currentBlock: Option<nat>)
      requires Waiting(address, j) && PcOf(address, j).ReadBlock?
      modifies this`jobs, this`nonces, this`worlds
      ensures View(address) == Step(old(View(address)), BlockRead(j, currentBlock)) && OthersUnchanged(address)
    {
      var pc := PcOf(address, j);
      if currentBlock.Some? && pc.floor.expiresAtBlock.Some? && currentBlock.value > pc.floor.expiresAtBlock.value {
        var world := WorldOf(address);
        worlds := worlds[address := world.(block := NonceMachine.Max(world.block, currentBlock.value))];
        Await(address, j, ClearFloor(pc.why, pc.observed, pc.floor, true));
      } else {
        PendingNonceResolved(address, j, pc.why, Some(pc.floor.next));
      }
    }

    ghost method ClearingReachesTheStore(address: string, observed: nat, outcome: Clearing)
      modifies this`worlds
      ensures View(address) == AfterClearing(old(View(address)), observed, outcome) && OthersUnchanged(address)
    {
      var a := AfterClearing(View(address), observed, outcome);
      worlds := worlds[address := World(a.cache, a.floor, a.lapse, a.seen, a.block, a.issued, a.guarded)];
    }

    /** applyDurableNonceFloor after its clearDurableNonceFloor, which may have failed
        before, within or after its writing. Where the block number led to it, the
        failure is caught and the floor is used after all. */
    method DurableFloorCleared(address: string, j: nat, ghost outcome: Clearing, ok: bool)
      requires Waiting(address, j) && PcOf(address, j).ClearFloor?
      requires CanEnd(View(address), outcome) && (ok <==> outcome.Cleared?)
      modifies this`jobs, this`nonces, this`worlds
      ensures View(address) == Step(old(View(address)), FloorCleared(j, outcome)) && OthersUnchanged(address)
    {
      var pc := PcOf(address, j);
      ClearingReachesTheStore(address, pc.observed, outcome);
      if ok {
        PendingNonceResolved(address, j, pc.why, Some(pc.observed));
      } else if pc.byBlock {
        PendingNonceResolved(address, j, pc.why, Some(pc.floor.next));
      } else {
        PendingNonceResolved(address, j, pc.why, None);
      }
    }

    /** getPendingNonce has settled: back to whoever asked. */
    method PendingNonceResolved(address: string, j: nat, why: Why, pending: Option<nat>)
      requires Waiting(address, j)
      modifies this`jobs, this`nonces, this`worlds
      ensures View(address) == Deliver(old(View(address)), j, why, pending) && OthersUnchanged(address)
    {
      match why
      case Fresh =>
        if pending.None? {
          Await(address, j, Settled);
        } else {
          nonces := nonces[address := pending.value];     // resetNonce
          UseStoredNonce(address, j);
        }
      case AfterFailure(_) =>                             // handleFailedNonce
        if pending.Some? {
          nonces := nonces[address := pending.value];
        }
        Await(address, j, Settled);
      case AfterConsumed(_, preserved) =>                 // reconcileConsumedNonce
        if pending.Some? {
          nonces := nonces[address := if preserved < pending.value then pending.value else preserved];
        } else {
          nonces := nonces[address := preserved];
        }
        Await(address, j, Settled);
    }

    /** The transaction function has returned; a pause follows. */
    method TransactionReturned(address: string, j: nat)
      requires Waiting(address, j) && PcOf(address, j).Body?
      modifies this`jobs
      ensures View(address) == Step(old(View(address)), BodyReturns(j)) && OthersUnchanged(address)
    {
      Await(address, j, Delay(PcOf(address, j).nonce));
    }

    /** The transaction function has thrown. */
    method TransactionThrew(address: string, j: nat, nonceConsumed: bool)
      requires Waiting(address, j) && PcOf(address, j).Body?
      modifies this`jobs
      ensures View(address) == Step(old(View(address)), if nonceConsumed then BodyConsumed(j) else BodyFails(j))
      ensures OthersUnchanged(address)
    {
      var nonce := PcOf(address, j).nonce;
      if nonceConsumed {
        var stored := if address in nonces then nonces[address] else nonce + 1;
        Await(address, j, ReadPending(AfterConsumed(nonce, if stored < nonce + 1 then nonce + 1 else stored)));
      } else {
        Await(address, j, ReadPending(AfterFailure(nonce)));
      }
    }

    /** The transaction function has seen its submission accepted privately and
        markDurableNonceFloor has written the floor. */
    ghost method FloorMarked(address: string, j: nat, expiresAtMs: Option<nat>, expiresAtBlock: Option<nat>)
      requires Waiting(address, j) && PcOf(address, j).Body?
      modifies this`worlds
      ensures View(address) == Step(old(View(address)), MarkFloor(j, expiresAtMs, expiresAtBlock))
      ensures OthersUnchanged(address)
    {
      var n := PcOf(address, j).nonce;
      var a := Marked(View(address), n, Floor(n + 1, expiresAtMs, expiresAtBlock));
      worlds := worlds[address := World(a.cache, a.floor, a.lapse, a.seen, a.block, a.issued, a.guarded)];
    }

    /** markDurableNonceFloor has failed at the write: only the store's cache has the
        floor. */
    ghost method FloorNotMarked(address: string, j: nat, expiresAtMs: Option<nat>, expiresAtBlock: Option<nat>)
      requires Waiting(address, j) && PcOf(address, j).Body?
      modifies this`worlds
      ensures View(address) == Step(old(View(address)), MarkNotWritten(j, expiresAtMs, expiresAtBlock))
      ensures OthersUnchanged(address)
    {
      var n, w := PcOf(address, j).nonce, WorldOf(address);
      if !Keeps(w.floor, n + 1) {
        worlds := worlds[address := w.(cache := Unwritten(Some(Floor(n + 1, expiresAtMs, expiresAtBlock))))];
      }
    }

    /** The store has reloaded the file, for another address or after another
        writer: lookups show the disk again. */
    ghost method StoreReloaded(address: string)
      modifies this`worlds
      ensures View(address) == Step(old(View(address)), CacheReloaded) && OthersUnchanged(address)
      ensures Shown(View(address)) == View(address).floor == old(View(address)).floor
    {
      worlds := worlds[address := WorldOf(address).(cache := Current)];
    }

    method DelayElapsed(address: string, j: nat)
      requires Waiting(address, j) && PcOf(address, j).Delay?
      modifies this`jobs
      ensures View(address) == Step(old(View(address)), DelayOver(j)) && OthersUnchanged(address)
    {
      Await(address, j, Settled);
    }

    /** The callback that drops the map entry, unless a later job has replaced it. */
    method CleanupQueue(address: string, j: nat)
      requires Waiting(address, j) && PcOf(address, j).Settled?
      modifies this`queues
      ensures View(address) == Step(old(View(address)), Cleanup(j)) && OthersUnchanged(address)
    {
      if Get(queues, address) == Some(j) {
        queues := queues - {address};
      }
    }

    /** The process dies and a new one starts: only the disk is left. */
    method Restart()
      modifies this`nonces, this`queues, this`nonceReaders, this`jobs, this`worlds
      ensures forall address :: View(address) == Step(old(View(address)), Crash)
      ensures nonceReaders == map[]
    {
      ghost var before := worlds;
      nonces, queues, nonceReaders, jobs := map[], map[], map[], map[];
      worlds := map address | address in before :: before[address].(
        cache := Current,
        lapse := if before[address].lapse.GivenUp? then GivenUpBeforeRestart else before[address].lapse);
    }
  }
}
