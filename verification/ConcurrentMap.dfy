/** `mapWithConcurrencyPreservingOrder`: a pool of workers that share a cursor
    into the input and write their results by index. */
module ConcurrentMap {
  import opened Wrappers

  datatype Failure<+E> = InvalidConcurrency | MapperFailed(error: E)

  /** Where one worker stands: at the head of its loop, awaiting the mapper,
      finished, or rejected. */
  datatype Worker = Head | Busy(index: nat) | Done | Threw

  predicate Unfinished(w: Worker) { w.Head? || w.Busy? }

  /** The map the program refines: one item after another, first error wins. */
  function MapInOrder<T, R, E>(items: seq<T>, mapper: (T, nat) -> Result<R, E>): (r: Result<seq<R>, E>)
    ensures r.Ok? ==> |r.value| == |items|
    ensures r.Ok? ==> forall i: nat :: i < |items| ==> mapper(items[i], i) == Ok(r.value[i])
    ensures r.Err? ==> exists i: nat :: i < |items| && mapper(items[i], i) == Err(r.error)
                                        && forall j: nat :: j < i ==> mapper(items[j], j).Ok?
  {
    if items == [] then Ok([])
    else
      var n := |items| - 1;
      match MapInOrder(items[..n], mapper)
      case Err(e) => Err(e)
      case Ok(rs) =>
        match mapper(items[n], n)
        case Err(e) => Err(e)
        case Ok(r) => Ok(rs + [r])
  }

  function CountBusy(workers: seq<Worker>): (n: nat)
    ensures n <= |workers|
  {
    if workers == [] then 0
    else (if workers[0].Busy? then 1 else 0) + CountBusy(workers[1..])
  }

  /** Bounds the number of steps still to come. */
  ghost function Weight(workers: seq<Worker>): nat {
    if workers == [] then 0
    else (match workers[0] case Head => 1 case Busy(_) => 2 case _ => 0) + Weight(workers[1..])
  }

  lemma {:induction false} WeightUpdate(workers: seq<Worker>, k: nat, w: Worker)
    requires k < |workers|
    ensures Weight(workers[k := w]) == Weight(workers) - Weight([workers[k]]) + Weight([w])
  {
    if k > 0 {
      assert workers[k := w][1..] == workers[1..][k - 1 := w];
      WeightUpdate(workers[1..], k - 1, w);
    } else {
      assert workers[0 := w][1..] == workers[1..];
    }
  }

  lemma UpdateKeepsOthers(workers: seq<Worker>, k: nat, w: Worker)
    requires k < |workers|
    ensures w in workers[k := w]
    ensures forall x :: x in workers && x != workers[k] ==> x in workers[k := w]
  {
    assert workers[k := w][k] == w;
    forall j | 0 <= j < |workers| && workers[j] != workers[k] ensures workers[j] in workers[k := w] {
      assert workers[k := w][j] == workers[j];
    }
  }

  function Min(a: int, b: int): int { if a < b then a else b }

  function Max(a: int, b: int): int { if a < b then b else a }

  /** What holds between any two steps of the pool; `rejection` is what
      Promise.all rejects with, and is set exactly when `failed` is. */
  ghost predicate Consistent<T, R, E>(
      items: seq<T>, mapper: (T, nat) -> Result<R, E>,
      nextIndex: nat, results: seq<Option<R>>, rejection: Option<E>, workers: seq<Worker>)
  {
    && |results| == |items| && nextIndex <= |items|
    && (rejection.Some? ==> exists i: nat :: i < |items| && mapper(items[i], i) == Err(rejection.value))
    // a claimed index is settled with its value, in a worker's hands, or lost to a failure
    && (forall i: nat :: i < nextIndex ==>
          || (results[i].Some? && mapper(items[i], i) == Ok(results[i].value))
          || (results[i].None? && Busy(i) in workers)
          || (rejection.Some? && mapper(items[i], i).Err?))
    && (forall i: nat :: nextIndex <= i < |items| ==> results[i].None?)
    && (forall k :: 0 <= k < |workers| && workers[k].Busy? ==>
          workers[k].index < nextIndex && results[workers[k].index].None?)
    && (forall k, l :: 0 <= k < l < |workers| && workers[k].Busy? ==> workers[k] != workers[l])
    && (forall k :: 0 <= k < |workers| && workers[k].Done? ==> rejection.Some? || nextIndex == |items|)
    && (forall k :: 0 <= k < |workers| && workers[k].Threw? ==> rejection.Some?)
  }

  lemma ClaimKeepsConsistent<T, R, E>(
      items: seq<T>, mapper: (T, nat) -> Result<R, E>,
      nextIndex: nat, results: seq<Option<R>>, rejection: Option<E>, workers: seq<Worker>, k: nat)
    requires Consistent(items, mapper, nextIndex, results, rejection, workers)
    requires k < |workers| && workers[k] == Head
    requires nextIndex < |items|
    ensures Consistent(items, mapper, nextIndex + 1, results, rejection, workers[k := Busy(nextIndex)])
  {
    UpdateKeepsOthers(workers, k, Busy(nextIndex));
  }

  lemma StopKeepsConsistent<T, R, E>(
      items: seq<T>, mapper: (T, nat) -> Result<R, E>,
      nextIndex: nat, results: seq<Option<R>>, rejection: Option<E>, workers: seq<Worker>, k: nat)
    requires Consistent(items, mapper, nextIndex, results, rejection, workers)
    requires k < |workers| && workers[k] == Head
    requires rejection.Some? || nextIndex == |items|
    ensures Consistent(items, mapper, nextIndex, results, rejection, workers[k := Done])
  {
    UpdateKeepsOthers(workers, k, Done);
  }

  lemma ReturnKeepsConsistent<T, R, E>(
      items: seq<T>, mapper: (T, nat) -> Result<R, E>,
      nextIndex: nat, results: seq<Option<R>>, rejection: Option<E>, workers: seq<Worker>, k: nat, value: R)
    requires Consistent(items, mapper, nextIndex, results, rejection, workers)
    requires k < |workers| && workers[k].Busy? && mapper(items[workers[k].index], workers[k].index) == Ok(value)
    ensures Consistent(
              items, mapper, nextIndex, results[workers[k].index := Some(value)], rejection, workers[k := Head])
  {
    UpdateKeepsOthers(workers, k, Head);
  }

  lemma ThrowKeepsConsistent<T, R, E>(
      items: seq<T>, mapper: (T, nat) -> Result<R, E>,
      nextIndex: nat, results: seq<Option<R>>, rejection: Option<E>, rejection': Option<E>,
      workers: seq<Worker>, k: nat, error: E)
    requires Consistent(items, mapper, nextIndex, results, rejection, workers)
    requires k < |workers| && workers[k].Busy? && mapper(items[workers[k].index], workers[k].index) == Err(error)
    requires rejection' == if rejection.Some? then rejection else Some(error)
    ensures Consistent(items, mapper, nextIndex, results, rejection', workers[k := Threw])
  {
    UpdateKeepsOthers(workers, k, Threw);
  }

  /** With one worker the pool is the plain loop: everything before the current
      index has succeeded, and the first failure is the one reported. */
  ghost predicate OneByOne<T, R, E>(
      items: seq<T>, mapper: (T, nat) -> Result<R, E>,
      nextIndex: nat, rejection: Option<E>, workers: seq<Worker>)
    requires nextIndex <= |items|
  {
    |workers| == 1 ==>
      && (workers[0].Busy? ==> nextIndex > 0 && workers[0].index == nextIndex - 1)
      && (forall i: nat :: i < nextIndex - 1 ==> mapper(items[i], i).Ok?)
      && (workers[0].Head? && nextIndex > 0 ==> mapper(items[nextIndex - 1], nextIndex - 1).Ok?)
      && (rejection.Some? ==>
            workers[0].Threw? && nextIndex > 0 && mapper(items[nextIndex - 1], nextIndex - 1) == Err(rejection.value))
  }

  /** All workers finished and none failed: every slot holds its mapped value. */
  lemma FinishedMeansMapped<T, R, E>(
      items: seq<T>, mapper: (T, nat) -> Result<R, E>,
      nextIndex: nat, results: seq<Option<R>>, workers: seq<Worker>)
    requires Consistent(items, mapper, nextIndex, results, None, workers)
    requires |workers| > 0 && forall k :: 0 <= k < |workers| ==> !Unfinished(workers[k])
    ensures nextIndex == |items|
    ensures forall i: nat :: i < |items| ==> results[i].Some? && mapper(items[i], i) == Ok(results[i].value)
    ensures MapInOrder(items, mapper).Ok?
  {
    assert workers[0].Done?;
    assert forall i: nat :: Busy(i) !in workers;
  }

  /** With one worker the reported failure is that of the plain loop. */
  lemma OneWorkerReportsTheFirstFailure<T, R, E>(
      items: seq<T>, mapper: (T, nat) -> Result<R, E>, nextIndex: nat, rejection: Option<E>, workers: seq<Worker>)
    requires nextIndex <= |items| && OneByOne(items, mapper, nextIndex, rejection, workers)
    requires |workers| == 1 && rejection.Some?
    ensures MapInOrder(items, mapper) == Err(rejection.value)
  {
    assert mapper(items[nextIndex - 1], nextIndex - 1).Err?;
  }

  /** One worker's turn, from one await to the next: it either takes the next
      index (or stops), or deals with the mapper's outcome. */
  method Turn<T, R, E>(items: seq<T>, mapper: (T, nat) -> Result<R, E>, k: nat,
                       nextIndex: nat, results: seq<Option<R>>, rejection: Option<E>, workers: seq<Worker>)
    returns (nextIndex': nat, results': seq<Option<R>>, rejection': Option<E>, workers': seq<Worker>)
    requires Consistent(items, mapper, nextIndex, results, rejection, workers)
    requires OneByOne(items, mapper, nextIndex, rejection, workers)
    requires k < |workers| && Unfinished(workers[k])
    ensures Consistent(items, mapper, nextIndex', results', rejection', workers') && |workers'| == |workers|
    ensures OneByOne(items, mapper, nextIndex', rejection', workers')
    ensures 3 * (|items| - nextIndex') + Weight(workers') < 3 * (|items| - nextIndex) + Weight(workers)
    ensures nextIndex' == nextIndex || (nextIndex' == nextIndex + 1 && workers'[k] == Busy(nextIndex))
    ensures workers[k].Head? && rejection.None? && nextIndex < |items| ==>
              nextIndex' == nextIndex + 1 && workers' == workers[k := Busy(nextIndex)] && rejection' == rejection
    ensures rejection.Some? ==> rejection' == rejection && nextIndex' == nextIndex
    ensures rejection != rejection' ==> nextIndex' == nextIndex
  {
    nextIndex', results', rejection' := nextIndex, results, rejection;
    if workers[k].Head? {
      var failed := rejection.Some?;
      if !failed && nextIndex < |items| {
        ClaimKeepsConsistent(items, mapper, nextIndex, results, rejection, workers, k);
        WeightUpdate(workers, k, Busy(nextIndex));
        workers' := workers[k := Busy(nextIndex)];
        nextIndex' := nextIndex + 1;
      } else {
        StopKeepsConsistent(items, mapper, nextIndex, results, rejection, workers, k);
        WeightUpdate(workers, k, Done);
        workers' := workers[k := Done];
      }
    } else {
      var index := workers[k].index;
      match mapper(items[index], index)
      case Ok(value) =>
        ReturnKeepsConsistent(items, mapper, nextIndex, results, rejection, workers, k, value);
        WeightUpdate(workers, k, Head);
        results' := results[index := Some(value)];
        workers' := workers[k := Head];
      case Err(error) =>
        rejection' := if rejection.Some? then rejection else Some(error);
        ThrowKeepsConsistent(items, mapper, nextIndex, results, rejection, rejection', workers, k, error);
        WeightUpdate(workers, k, Threw);
        workers' := workers[k := Threw];
    }
  }

  /** Which worker has its next turn: the number of the turn and where the workers
      stand decide. Any choice of an unfinished worker will do. */
  type Schedule = (nat, seq<Worker>) -> nat

  ghost predicate Schedules(schedule: Schedule) {
    forall turn: nat, workers: seq<Worker> :: (exists k :: 0 <= k < |workers| && Unfinished(workers[k])) ==>
      schedule(turn, workers) < |workers| && Unfinished(workers[schedule(turn, workers)])
  }

  /** No mapper settles before every worker has had its first turn. */
  ghost predicate Slow(schedule: Schedule) {
    forall turn: nat, workers: seq<Worker> :: (exists k :: 0 <= k < |workers| && workers[k].Head?) ==>
      schedule(turn, workers) < |workers| && workers[schedule(turn, workers)].Head?
  }

  /** n workers await their mappers, the others are about to take an index. */
  ghost predicate StartingUp(workers: seq<Worker>, n: nat) {
    CountBusy(workers) == n && forall k :: 0 <= k < |workers| ==> workers[k].Busy? || workers[k].Head?
  }

  ghost predicate AllStarting<E>(workers: seq<Worker>, nextIndex: nat, rejection: Option<E>, peak: nat) {
    rejection.None? && peak == nextIndex && StartingUp(workers, nextIndex)
  }

  lemma {:induction false} CountBusyUpdate(workers: seq<Worker>, k: nat, index: nat)
    requires k < |workers| && workers[k].Head?
    ensures CountBusy(workers[k := Busy(index)]) == CountBusy(workers) + 1
  {
    if k > 0 {
      assert workers[k := Busy(index)][1..] == workers[1..][k - 1 := Busy(index)];
      CountBusyUpdate(workers[1..], k - 1, index);
    } else {
      assert workers[0 := Busy(index)][1..] == workers[1..];
    }
  }

  lemma {:induction false} AllBusyOrAHead(workers: seq<Worker>)
    requires forall k :: 0 <= k < |workers| ==> workers[k].Busy? || workers[k].Head?
    ensures CountBusy(workers) < |workers| ==> exists k :: 0 <= k < |workers| && workers[k].Head?
  {
    if workers != [] && workers[0].Busy? {
      AllBusyOrAHead(workers[1..]);
      if k :| 0 <= k < |workers[1..]| && workers[1..][k].Head? {
        assert workers[k + 1].Head?;
      }
    }
  }

  /** While no mapper has settled, a worker that has not had its turn takes the next
      index. */
  lemma StartsUp(schedule: Schedule, turn: nat, workers: seq<Worker>, n: nat)
    requires Slow(schedule) && StartingUp(workers, n) && n < |workers|
    ensures schedule(turn, workers) < |workers| && workers[schedule(turn, workers)].Head?
    ensures StartingUp(workers[schedule(turn, workers) := Busy(n)], n + 1)
  {
    AllBusyOrAHead(workers);
    CountBusyUpdate(workers, schedule(turn, workers), n);
  }

  lemma {:induction false} NobodyIsBusyYet(n: nat)
    ensures CountBusy(seq(n, _ => Head)) == 0
  {
    if n > 0 {
      assert seq(n, _ => Head)[1..] == seq(n - 1, _ => Head);
      NobodyIsBusyYet(n - 1);
    }
  }

  /** The turn of the worker that the schedule picks; `claimed` is the index it took,
      if it took one. */
  method ScheduledTurn<T, R, E>(
      items: seq<T>, mapper: (T, nat) -> Result<R, E>, schedule: Schedule, turn: nat,
      nextIndex: nat, results: seq<Option<R>>, rejection: Option<E>, workers: seq<Worker>)
    returns (nextIndex': nat, results': seq<Option<R>>, rejection': Option<E>, workers': seq<Worker>,
             ghost claimed: seq<nat>)
    requires Consistent(items, mapper, nextIndex, results, rejection, workers)
    requires OneByOne(items, mapper, nextIndex, rejection, workers)
    requires Schedules(schedule) && |workers| <= |items| && exists k :: 0 <= k < |workers| && Unfinished(workers[k])
    ensures Consistent(items, mapper, nextIndex', results', rejection', workers') && |workers'| == |workers|
    ensures OneByOne(items, mapper, nextIndex', rejection', workers')
    ensures 3 * (|items| - nextIndex') + Weight(workers') < 3 * (|items| - nextIndex) + Weight(workers)
    ensures claimed == if nextIndex' == nextIndex then [] else [nextIndex]
    ensures nextIndex' == nextIndex + |claimed|
    ensures rejection.Some? ==> rejection' == rejection && nextIndex' == nextIndex
    ensures rejection != rejection' ==> nextIndex' == nextIndex
    ensures Slow(schedule) && nextIndex < |workers| && AllStarting(workers, nextIndex, rejection, nextIndex) ==>
              AllStarting(workers', nextIndex + 1, rejection', nextIndex') && CountBusy(workers') == nextIndex + 1
  {
    var k := schedule(turn, workers);
    nextIndex', results', rejection', workers' := Turn(items, mapper, k, nextIndex, results, rejection, workers);
    claimed := if nextIndex' == nextIndex then [] else [workers'[k].index];
    if Slow(schedule) && nextIndex < |workers| && AllStarting(workers, nextIndex, rejection, nextIndex) {
      StartsUp(schedule, turn, workers, nextIndex);
    }
  }

  lemma StartIsConsistent<T, R, E>(
      items: seq<T>, mapper: (T, nat) -> Result<R, E>, results: seq<Option<R>>, workers: seq<Worker>)
    requires results == seq(|items|, _ => None) && workers == seq(|workers|, _ => Head)
    ensures Consistent(items, mapper, 0, results, None, workers) && OneByOne(items, mapper, 0, None, workers)
    ensures AllStarting<E>(workers, 0, None, 0)
  {
    NobodyIsBusyYet(|workers|);
  }

  lemma ClaimsStayInOrder(claims: seq<nat>, claimed: seq<nat>, n: nat)
    requires |claimed| <= n && claims == seq(n - |claimed|, i => i)
    requires claimed == [] || claimed == [n - 1]
    ensures claims + claimed == seq(n, i => i)
  {
  }

  /** The workers, run to completion under any schedule. `claims` lists the indices
      in the order workers took them, `peak` is the largest number of mappers
      awaited at once, and `claimedAtFailure` the number of claims when the first
      failure was recorded. */
  method RunWorkers<T, R, E>(
      items: seq<T>, workerCount: nat, mapper: (T, nat) -> Result<R, E>, schedule: Schedule)
    returns (nextIndex: nat, results: seq<Option<R>>, rejection: Option<E>, workers: seq<Worker>,
             ghost claims: seq<nat>, ghost peak: nat, ghost claimedAtFailure: nat)
    requires Schedules(schedule) && workerCount <= |items|
    ensures Consistent(items, mapper, nextIndex, results, rejection, workers)
    ensures OneByOne(items, mapper, nextIndex, rejection, workers)
    ensures |workers| == workerCount && forall k :: 0 <= k < |workers| ==> !Unfinished(workers[k])
    ensures claims == seq(nextIndex, i => i)
    ensures peak <= workerCount && (Slow(schedule) ==> peak == workerCount)
    ensures rejection.Some? ==> claimedAtFailure == nextIndex
  {
    results := seq(|items|, _ => None);
    nextIndex, rejection := 0, None;
    workers := seq(workerCount, _ => Head);
    claims, peak, claimedAtFailure := [], 0, 0;
    StartIsConsistent(items, mapper, results, workers);
    var turn := 0;

    while exists k :: 0 <= k < |workers| && Unfinished(workers[k])
      invariant |workers| == workerCount
      invariant Consistent(items, mapper, nextIndex, results, rejection, workers)
      invariant OneByOne(items, mapper, nextIndex, rejection, workers)
      invariant claims == seq(nextIndex, i => i) && peak <= workerCount
      invariant rejection.Some? ==> claimedAtFailure == nextIndex
      invariant Slow(schedule) && peak < workerCount ==> AllStarting(workers, nextIndex, rejection, peak)
      decreases 3 * (|items| - nextIndex) + Weight(workers)
    {
      ghost var wasRejected := rejection.Some?;
      ghost var claimed;
      nextIndex, results, rejection, workers, claimed :=
        ScheduledTurn(items, mapper, schedule, turn, nextIndex, results, rejection, workers);
      turn := turn + 1;
      ClaimsStayInOrder(claims, claimed, nextIndex);
      claims := claims + claimed;
      peak := Max(peak, CountBusy(workers));
      claimedAtFailure := if wasRejected then claimedAtFailure else nextIndex;
    }
  }

  /** `concurrency` is None when the argument is NaN or infinite. */
  method MapWithConcurrencyPreservingOrder<T, R, E>(
      items: seq<T>, concurrency: Option<real>, mapper: (T, nat) -> Result<R, E>, schedule: Schedule)
    returns (r: Result<seq<R>, Failure<E>>, ghost claims: seq<nat>, ghost peak: nat, ghost claimedAtFailure: nat)
    requires Schedules(schedule)
    ensures r == Err(InvalidConcurrency) <==>
              items != [] && (concurrency.None? || concurrency.value < 1.0)
    ensures r.Ok? ==> MapInOrder(items, mapper) == Ok(r.value) && claims == seq(|items|, i => i)
    ensures r.Err? && r.error.MapperFailed? ==>
              && MapInOrder(items, mapper).Err?
              && (exists i: nat :: i < |items| && mapper(items[i], i) == Err(r.error.error))
              && (concurrency.value < 2.0 ==> MapInOrder(items, mapper) == Err(r.error.error))
              && claims == seq(claimedAtFailure, i => i)
    ensures peak <= |items| && (concurrency.Some? && peak > 0 ==> peak <= concurrency.value.Floor)
    ensures Slow(schedule) && concurrency.Some? && concurrency.value >= 1.0 ==>
              peak == if concurrency.value.Floor < |items| then concurrency.value.Floor else |items|
  {
    if |items| == 0 {
      return Ok([]), [], 0, 0;
    }
    if concurrency.None? || concurrency.value < 1.0 {
      return Err(InvalidConcurrency), [], 0, 0;
    }
    var workerCount := Min(Max(1, concurrency.value.Floor), |items|);
    var nextIndex, results, rejection, workers;
    nextIndex, results, rejection, workers, claims, peak, claimedAtFailure :=
      RunWorkers(items, workerCount, mapper, schedule);
    if rejection.Some? {
      if |workers| == 1 {
        OneWorkerReportsTheFirstFailure(items, mapper, nextIndex, rejection, workers);
      }
      return Err(MapperFailed(rejection.value)), claims, peak, claimedAtFailure;
    }
    FinishedMeansMapped(items, mapper, nextIndex, results, workers);
    r := Ok(seq(|items|, i requires 0 <= i < |items| && results[i].Some? => results[i].value));
    assert MapInOrder(items, mapper).value == r.value;
  }
}
