/** The two failover loops: a subgraph request and a read-RPC gas price. */
module Failover {
  import opened Wrappers
  import opened EndpointHealth

  // -------------------------------------------------------- unique endpoints

  /** The configured endpoints without blanks and repetitions, first come first. */
  function Unique(endpoints: seq<string>): seq<string> {
    if endpoints == [] then []
    else
      var n := |endpoints| - 1;
      var front := Unique(endpoints[..n]);
      if endpoints[n] == "" || endpoints[n] in endpoints[..n] then front else front + [endpoints[n]]
  }

  ghost predicate NoRepeats(s: seq<string>) {
    forall i, j :: 0 <= i < j < |s| ==> s[i] != s[j]
  }

  lemma {:induction false} UniqueEndpointsAreTheSameSet(endpoints: seq<string>)
    ensures NoRepeats(Unique(endpoints))
    ensures forall e :: e in Unique(endpoints) <==> e in endpoints && e != ""
  {
    if endpoints != [] {
      var n := |endpoints| - 1;
      UniqueEndpointsAreTheSameSet(endpoints[..n]);
      assert endpoints == endpoints[..n] + [endpoints[n]];
    }
  }

  /** And they are in the order in which they are first mentioned. */
  lemma {:induction false} UniqueKeepsTheOrder(endpoints: seq<string>, i: nat, j: nat)
    requires i < j < |Unique(endpoints)|
    ensures exists p: nat :: FirstSeenBefore(endpoints, p, Unique(endpoints)[i], Unique(endpoints)[j])
  {
    var n := |endpoints| - 1;
    var front := Unique(endpoints[..n]);
    UniqueEndpointsAreTheSameSet(endpoints[..n]);
    if j < |front| {
      UniqueKeepsTheOrder(endpoints[..n], i, j);
      var p: nat :| FirstSeenBefore(endpoints[..n], p, front[i], front[j]);
      assert endpoints[..n][..p + 1] == endpoints[..p + 1];
      assert FirstSeenBefore(endpoints, p, Unique(endpoints)[i], Unique(endpoints)[j]);
    } else {
      assert front[i] in endpoints[..n];
      var p: nat :| p < n && endpoints[..n][p] == front[i];
      forall q: nat | q <= p ensures endpoints[q] != endpoints[n] {
        assert endpoints[..n][q] == endpoints[q];
      }
      assert FirstSeenBefore(endpoints, p, Unique(endpoints)[i], Unique(endpoints)[j]);
    }
  }

  /** Endpoint a is at p, and b is not mentioned up to there. */
  predicate FirstSeenBefore(endpoints: seq<string>, p: nat, a: string, b: string) {
    p < |endpoints| && endpoints[p] == a && b !in endpoints[..p + 1]
  }

  method UniqueEndpoints(endpoints: seq<string>) returns (result: seq<string>)
    ensures result == Unique(endpoints)
  {
    var seen: set<string> := {};
    result := [];
    for i := 0 to |endpoints|
      invariant forall e :: e in seen <==> e in endpoints[..i] && e != ""
      invariant result == Unique(endpoints[..i])
    {
      assert endpoints[..i + 1][..i] == endpoints[..i];
      assert endpoints[..i + 1] == endpoints[..i] + [endpoints[i]];
      if endpoints[i] != "" && endpoints[i] !in seen {
        seen := seen + {endpoints[i]};
        result := result + [endpoints[i]];
      }
    }
    assert endpoints[..|endpoints|] == endpoints;
  }

  // ------------------------------------------------------- what a loop leaves

  /** One awaited attempt: its outcome, when it finished, and what other
      requests recorded in the meantime. */
  datatype Attempt<T> = Attempt(result: Result<T, Error>, finishedAt: nat, others: seq<Entry>)

  function EventOf<T>(a: Attempt<T>): Event {
    if a.result.Ok? then Succeeded(a.finishedAt) else Failed(a.finishedAt, a.result.error)
  }

  /** What the log gains while the first m endpoints are tried. */
  function Trail<T>(kind: Kind, ordered: seq<string>, attempts: nat -> Attempt<T>, m: nat): seq<Entry>
    requires m <= |ordered|
  {
    if m == 0 then []
    else Trail(kind, ordered, attempts, m - 1) + attempts(m - 1).others
         + [Entry(Id(kind, ordered[m - 1]), EventOf(attempts(m - 1)))]
  }

  /** The number of attempts that fail before the first success. */
  function Failures<T>(attempts: nat -> Attempt<T>, n: nat): (k: nat)
    ensures k <= n
    ensures forall i: nat :: i < k ==> attempts(i).result.Err?
    ensures k < n ==> attempts(k).result.Ok?
  {
    if n == 0 then 0
    else
      var k := Failures(attempts, n - 1);
      if k < n - 1 || attempts(n - 1).result.Ok? then k else n
  }

  /** First success in order; the last error when there is none. */
  function Answer<T>(attempts: nat -> Attempt<T>, n: nat): Result<T, Error> {
    var k := Failures(attempts, n);
    if k < n then attempts(k).result
    else if n > 0 then attempts(n - 1).result
    else Err(NoEndpoints)
  }

  function Tried<T>(attempts: nat -> Attempt<T>, n: nat): (m: nat)
    ensures m <= n
  {
    var k := Failures(attempts, n);
    if k < n then k + 1 else n
  }

  /** The loop state between attempts: all of them failed, the last with `lastError`. */
  ghost predicate FailedSoFar<T>(attempts: nat -> Attempt<T>, m: nat, lastError: Option<Error>) {
    && (forall i: nat :: i < m ==> attempts(i).result.Err?)
    && (if m == 0 then lastError.None? else lastError == Some(attempts(m - 1).result.error))
  }

  lemma AnswerIsTheFirstSuccess<T>(attempts: nat -> Attempt<T>, n: nat, k: nat, lastError: Option<Error>)
    requires k < n && FailedSoFar(attempts, k, lastError) && attempts(k).result.Ok?
    ensures Answer(attempts, n) == attempts(k).result && Tried(attempts, n) == k + 1
  {
    assert Failures(attempts, n) == k;
  }

  lemma AnswerIsTheLastError<T>(attempts: nat -> Attempt<T>, n: nat, lastError: Option<Error>)
    requires FailedSoFar(attempts, n, lastError)
    ensures Answer(attempts, n) == Err(if lastError.Some? then lastError.value else NoEndpoints)
    ensures Tried(attempts, n) == n
  {
    assert Failures(attempts, n) == n;
  }

  // ------------------------------------------------ one recording per endpoint

  function Others<T>(attempts: nat -> Attempt<T>, m: nat): seq<Entry> {
    if m == 0 then [] else Others(attempts, m - 1) + attempts(m - 1).others
  }

  lemma {:induction false} OfAppend(a: seq<Entry>, b: seq<Entry>, id: Id)
    ensures Of(a + b, id) == Of(a, id) + Of(b, id)
  {
    if b == [] {
      assert a + b == a;
    } else {
      var n := |b| - 1;
      OfAppend(a, b[..n], id);
      assert (a + b)[..|a| + n] == a + b[..n];
      assert (a + b)[|a| + n] == b[n];
    }
  }

  lemma TrailStep<T>(kind: Kind, ordered: seq<string>, attempts: nat -> Attempt<T>, m: nat, id: Id)
    requires 0 < m <= |ordered|
    ensures Of(Trail(kind, ordered, attempts, m), id) ==
            Of(Trail(kind, ordered, attempts, m - 1), id) + Of(attempts(m - 1).others, id)
            + (if id == Id(kind, ordered[m - 1]) then [EventOf(attempts(m - 1))] else [])
    ensures Of(Others(attempts, m), id) == Of(Others(attempts, m - 1), id) + Of(attempts(m - 1).others, id)
  {
    var before, foreign := Trail(kind, ordered, attempts, m - 1), attempts(m - 1).others;
    OfSnoc(before + foreign, Entry(Id(kind, ordered[m - 1]), EventOf(attempts(m - 1))), id);
    OfAppend(before, foreign, id);
    OfAppend(Others(attempts, m - 1), foreign, id);
  }

  /** What endpoint i has on record after m attempts: what it had before its own
      turn, its own outcome once, and what others recorded before and after. */
  ghost predicate RecordedOnce<T>(own: seq<Event>, others: seq<Event>, attempts: nat -> Attempt<T>, m: nat, i: nat) {
    && (m <= i ==> own == others)
    && (m == i + 1 ==> own == others + [EventOf(attempts(i))])
    && |own| == |others| + if i < m then 1 else 0
  }

  /** Beyond what other requests record, a request leaves exactly one event on
      each endpoint it tried, its own outcome, and none on the others. */
  lemma {:induction false} EachEndpointIsRecordedOnce<T>(
      kind: Kind, ordered: seq<string>, attempts: nat -> Attempt<T>, m: nat, i: nat)
    requires NoRepeats(ordered) && m <= |ordered| && i < |ordered|
    ensures RecordedOnce(Of(Trail(kind, ordered, attempts, m), Id(kind, ordered[i])),
                         Of(Others(attempts, m), Id(kind, ordered[i])), attempts, m, i)
  {
    if m > 0 {
      EachEndpointIsRecordedOnce(kind, ordered, attempts, m - 1, i);
      TrailStep(kind, ordered, attempts, m, Id(kind, ordered[i]));
    }
  }

  // ------------------------------------------------------------ the subgraph

  /** What the log gains over one awaited attempt. */
  method Report<T>(book: HealthBook, kind: Kind, endpoint: string, a: Attempt<T>,
                   ghost start: seq<Entry>, ghost trail: seq<Entry>)
    requires book.Valid() && book.log == start + trail
    modifies book
    ensures book.Valid()
    ensures book.log == start + (trail + a.others + [Entry(Id(kind, endpoint), EventOf(a))])
  {
    book.RecordAll(a.others);
    if a.result.Ok? {
      book.RecordEndpointSuccess(kind, endpoint, a.finishedAt);
    } else {
      book.RecordEndpointFailure(kind, endpoint, a.result.error, a.finishedAt);
    }
  }

  method TryInOrder<T>(book: HealthBook, endpoints: seq<string>, attempts: nat -> Attempt<T>, ghost start: seq<Entry>)
    returns (r: Result<T, Error>)
    requires book.Valid() && book.log == start
    modifies book
    ensures book.Valid()
    ensures r == Answer(attempts, |endpoints|)
    ensures book.log == start + Trail(Subgraph, endpoints, attempts, Tried(attempts, |endpoints|))
  {
    var lastError: Option<Error> := None;
    for index := 0 to |endpoints|
      invariant book.Valid()
      invariant FailedSoFar(attempts, index, lastError)
      invariant book.log == start + Trail(Subgraph, endpoints, attempts, index)
    {
      var a := attempts(index);
      Report(book, Subgraph, endpoints[index], a, start, Trail(Subgraph, endpoints, attempts, index));
      if a.result.Ok? {
        AnswerIsTheFirstSuccess(attempts, |endpoints|, index, lastError);
        return a.result;
      }
      lastError := Some(a.result.error);
    }
    AnswerIsTheLastError(attempts, |endpoints|, lastError);
    r := Err(if lastError.Some? then lastError.value else NoEndpoints);
  }

  method RequestSubgraph<T>(book: HealthBook, subgraphUrl: string, fallbackUrls: seq<string>, now: nat,
                            ghost cooling: string -> bool, attempts: nat -> Attempt<T>)
    returns (r: Result<T, Error>, ghost ordered: seq<string>)
    requires book.Valid() && forall e :: cooling(e) == book.Cooling(Subgraph, e, now)
    modifies book
    ensures book.Valid()
    ensures ordered == Ordered(Unique([subgraphUrl] + fallbackUrls), cooling)
    ensures r == Answer(attempts, |ordered|)
    ensures book.log == old(book.log) + Trail(Subgraph, ordered, attempts, Tried(attempts, |ordered|))
  {
    var unique := UniqueEndpoints([subgraphUrl] + fallbackUrls);
    var endpoints := book.OrderEndpointsByHealth(Subgraph, unique, now, cooling);
    ordered := endpoints;
    r := TryInOrder(book, endpoints, attempts, book.log);
  }

  // --------------------------------------------------------- the gas price

  datatype RpcConfig = RpcConfig(ethRpcUrl: Option<string>, readRpcUrls: Option<seq<string>>)

  /** The caller's own provider, with its connection url when it has one. */
  datatype Primary = NoPrimary | Primary(url: Option<string>)

  /** What one endpoint answers when asked for its chain id and its gas price. */
  datatype Probe = Probe(network: Result<int, Error>, gasPrice: Result<int, Error>, finishedAt: nat, others: seq<Entry>)

  function PrimaryEndpoint(config: RpcConfig, primary: Primary): string {
    if primary.Primary? && primary.url.Some? then primary.url.value
    else if config.ethRpcUrl.Some? then config.ethRpcUrl.value
    else "__primary_provider__"
  }

  function HasReadUrls(config: RpcConfig): bool {
    config.readRpcUrls.Some? && config.readRpcUrls.value != []
  }

  function Candidates(config: RpcConfig, primary: Primary): seq<string> {
    var configured :=
      if HasReadUrls(config) then Unique(config.readRpcUrls.value)
      else if config.ethRpcUrl.Some? then Unique([config.ethRpcUrl.value])
      else [];
    if primary.Primary? && !HasReadUrls(config) then [PrimaryEndpoint(config, primary)] + configured
    else configured
  }

  /** `own` names the caller's provider when it has one: only the first endpoint
      tried can be it. */
  predicate UsesPrimary(own: Option<string>, ordered: seq<string>, index: nat) {
    own.Some? && index == 0 < |ordered| && ordered[0] == own.value
  }

  function Own(config: RpcConfig, primary: Primary): Option<string> {
    if primary.Primary? then Some(PrimaryEndpoint(config, primary)) else None
  }

  /** One endpoint's outcome: the chain id, cached or asked for, must be the
      expected one before the price counts. */
  function Outcome(
      chainIds: map<string, int>, expected: Option<int>, own: bool, endpoint: string, p: Probe): Result<int, Error>
  {
    if expected.None? || own then p.gasPrice
    else
      var chain := if endpoint in chainIds then Ok(chainIds[endpoint]) else p.network;
      match chain
      case Err(e) => Err(e)
      case Ok(id) => if id == expected.value then p.gasPrice else Err(WrongChain(endpoint, id))
  }

  function AttemptAt(chainIds: map<string, int>, expected: Option<int>, own: Option<string>,
                     ordered: seq<string>, probes: nat -> Probe, i: nat): Attempt<int>
    requires i < |ordered|
  {
    Attempt(Outcome(chainIds, expected, UsesPrimary(own, ordered, i), ordered[i], probes(i)),
            probes(i).finishedAt, probes(i).others)
  }

  function Attempts(chainIds: map<string, int>, expected: Option<int>, own: Option<string>,
                    ordered: seq<string>, probes: nat -> Probe): nat -> Attempt<int>
  {
    (i: nat) =>
      if i < |ordered| then AttemptAt(chainIds, expected, own, ordered, probes, i)
      else Attempt(Err(NoEndpoints), 0, [])
  }

  /** The chain ids on record after one attempt, and after the first m. */
  function Learn(
      chainIds: map<string, int>, expected: Option<int>, own: bool, endpoint: string, p: Probe): map<string, int>
  {
    if expected.None? || own || endpoint in chainIds || p.network.Err? then chainIds
    else chainIds[endpoint := p.network.value]
  }

  function LearnAll(chainIds: map<string, int>, expected: Option<int>, own: Option<string>,
                    ordered: seq<string>, probes: nat -> Probe, m: nat): map<string, int>
    requires m <= |ordered|
  {
    if m == 0 then chainIds
    else Learn(LearnAll(chainIds, expected, own, ordered, probes, m - 1), expected,
               UsesPrimary(own, ordered, m - 1), ordered[m - 1], probes(m - 1))
  }

  /** Endpoint i is asked for its chain id when that is not known: an id is expected
      and it is not the caller's own provider. */
  predicate Asked(expected: Option<int>, own: Option<string>, ordered: seq<string>, i: nat) {
    expected.Some? && !UsesPrimary(own, ordered, i)
  }

  /** Recorded ids are never replaced, new ones are what their endpoint said when it
      was asked, and whatever an endpoint that was asked has said is recorded. */
  lemma {:induction false} LearntIdsAreReported(
      chainIds: map<string, int>, expected: Option<int>, own: Option<string>,
      ordered: seq<string>, probes: nat -> Probe, m: nat, e: string)
    requires m <= |ordered| && NoRepeats(ordered)
    ensures var after := LearnAll(chainIds, expected, own, ordered, probes, m);
            && (e in chainIds ==> e in after && after[e] == chainIds[e])
            && (e in after && e !in chainIds ==>
                  exists i: nat :: i < m && ordered[i] == e && Asked(expected, own, ordered, i)
                    && probes(i).network == Ok(after[e]))
            && (forall i: nat :: i < m && ordered[i] == e ==>
                  Asked(expected, own, ordered, i) && probes(i).network.Ok? ==> e in after)
  {
    if m > 0 {
      LearntIdsAreReported(chainIds, expected, own, ordered, probes, m - 1, e);
    }
  }

  /** A price comes from the caller's own provider, which is tried first or not at
      all, or from an endpoint whose chain id, as it reported it, is the expected
      one. */
  lemma PriceIsFromTheExpectedChain(
      chainIds: map<string, int>, expected: int, own: Option<string>,
      ordered: seq<string>, probes: nat -> Probe, chainOf: string -> int)
    requires NoRepeats(ordered)
    requires forall e :: e in chainIds ==> chainIds[e] == chainOf(e)
    requires forall i: nat :: i < |ordered| && probes(i).network.Ok? ==> probes(i).network.value == chainOf(ordered[i])
    ensures var attempts := Attempts(chainIds, Some(expected), own, ordered, probes);
            var k := Failures(attempts, |ordered|);
            Answer(attempts, |ordered|).Ok? ==>
              k < |ordered| && ((k == 0 && own == Some(ordered[0])) || chainOf(ordered[k]) == expected)
  {
    var attempts := Attempts(chainIds, Some(expected), own, ordered, probes);
    var k := Failures(attempts, |ordered|);
    if k == |ordered| > 0 {
      assert attempts(k - 1).result.Err?;
    }
  }

  class ReadRpcClient {
    var chainIds: map<string, int>

    constructor ()
      ensures chainIds == map[]
    {
      chainIds := map[];
    }

    method GetReadProviderChainId(endpoint: string, network: Result<int, Error>) returns (r: Result<int, Error>)
      modifies this
      ensures r == if endpoint in old(chainIds) then Ok(old(chainIds)[endpoint]) else network
      ensures chainIds == if endpoint !in old(chainIds) && network.Ok? then old(chainIds)[endpoint := network.value]
                          else old(chainIds)
    {
      if endpoint in chainIds {
        return Ok(chainIds[endpoint]);
      }
      if network.Ok? {
        chainIds := chainIds[endpoint := network.value];
      }
      r := network;
    }

    method CheckedPrice(expected: Option<int>, own: bool, endpoint: string, p: Probe) returns (r: Result<int, Error>)
      modifies this
      ensures r == Outcome(old(chainIds), expected, own, endpoint, p)
      ensures chainIds == Learn(old(chainIds), expected, own, endpoint, p)
    {
      if expected.Some? && !own {
        var chain := GetReadProviderChainId(endpoint, p.network);
        if chain.Err? {
          return Err(chain.error);
        }
        if chain.value != expected.value {
          return Err(WrongChain(endpoint, chain.value));
        }
      }
      r := p.gasPrice;
    }

    /** One attempt of the loop: as the endpoints are distinct, what earlier
        attempts learnt does not bear on this one. */
    method PriceAt(expected: Option<int>, own: Option<string>, ordered: seq<string>,
                   probes: nat -> Probe, index: nat, ghost start: map<string, int>, ghost attempts: nat -> Attempt<int>)
      returns (a: Attempt<int>)
      requires index < |ordered| && NoRepeats(ordered)
      requires attempts == Attempts(start, expected, own, ordered, probes)
      requires chainIds == LearnAll(start, expected, own, ordered, probes, index)
      modifies this
      ensures chainIds == LearnAll(start, expected, own, ordered, probes, index + 1)
      ensures a == attempts(index)
    {
      SameIdAsAtTheStart(start, expected, own, ordered, probes, index);
      var p := probes(index);
      var price := CheckedPrice(expected, UsesPrimary(own, ordered, index), ordered[index], p);
      a := Attempt(price, p.finishedAt, p.others);
    }

    method AttemptOne(book: HealthBook, expected: Option<int>, own: Option<string>, ordered: seq<string>,
                      probes: nat -> Probe, index: nat,
                      ghost attempts: nat -> Attempt<int>, ghost ids: map<string, int>, ghost start: seq<Entry>)
      returns (a: Attempt<int>)
      requires index < |ordered| && NoRepeats(ordered)
      requires attempts == Attempts(ids, expected, own, ordered, probes)
      requires book.Valid() && book.log == start + Trail(ReadRpc, ordered, attempts, index)
      requires chainIds == LearnAll(ids, expected, own, ordered, probes, index)
      modifies this, book
      ensures a == attempts(index)
      ensures book.Valid() && book.log == start + Trail(ReadRpc, ordered, attempts, index + 1)
      ensures chainIds == LearnAll(ids, expected, own, ordered, probes, index + 1)
    {
      a := PriceAt(expected, own, ordered, probes, index, ids, attempts);
      Report(book, ReadRpc, ordered[index], a, start, Trail(ReadRpc, ordered, attempts, index));
    }

    method TryGasPrices(book: HealthBook, expected: Option<int>, own: Option<string>, ordered: seq<string>,
                        probes: nat -> Probe,
                        ghost attempts: nat -> Attempt<int>, ghost ids: map<string, int>, ghost start: seq<Entry>)
      returns (r: Result<int, Error>)
      requires NoRepeats(ordered) && attempts == Attempts(ids, expected, own, ordered, probes)
      requires book.Valid() && book.log == start && chainIds == ids
      modifies this, book
      ensures book.Valid()
      ensures r == Answer(attempts, |ordered|)
      ensures book.log == start + Trail(ReadRpc, ordered, attempts, Tried(attempts, |ordered|))
      ensures chainIds == LearnAll(ids, expected, own, ordered, probes, Tried(attempts, |ordered|))
    {
      var lastError: Option<Error> := None;
      for index := 0 to |ordered|
        invariant FailedSoFar(attempts, index, lastError)
        invariant book.Valid() && book.log == start + Trail(ReadRpc, ordered, attempts, index)
        invariant chainIds == LearnAll(ids, expected, own, ordered, probes, index)
      {
        var a := AttemptOne(book, expected, own, ordered, probes, index, attempts, ids, start);
        if a.result.Ok? {
          AnswerIsTheFirstSuccess(attempts, |ordered|, index, lastError);
          return a.result;
        }
        lastError := Some(a.result.error);
      }
      AnswerIsTheLastError(attempts, |ordered|, lastError);
      r := Err(if lastError.Some? then lastError.value else NoEndpoints);
    }

    method GetResilientReadGasPrice(book: HealthBook, config: RpcConfig, primary: Primary, expected: Option<int>,
                                    now: nat, ghost cooling: string -> bool, probes: nat -> Probe)
      returns (r: Result<int, Error>, ghost ordered: seq<string>)
      requires book.Valid() && forall e :: cooling(e) == book.Cooling(ReadRpc, e, now)
      modifies this, book
      ensures book.Valid()
      ensures ordered == Ordered(Unique(Candidates(config, primary)), cooling) && NoRepeats(ordered)
      ensures var attempts := Attempts(old(chainIds), expected, Own(config, primary), ordered, probes);
              && r == Answer(attempts, |ordered|)
              && book.log == old(book.log) + Trail(ReadRpc, ordered, attempts, Tried(attempts, |ordered|))
              && chainIds
                   == LearnAll(
                        old(chainIds), expected, Own(config, primary), ordered, probes, Tried(attempts, |ordered|))
    {
      var own := Own(config, primary);
      var unique := UniqueEndpoints(Candidates(config, primary));
      var endpoints := book.OrderEndpointsByHealth(ReadRpc, unique, now, cooling);
      ordered := endpoints;
      UniqueEndpointsAreTheSameSet(Candidates(config, primary));
      OrderIsAPermutation(unique, cooling);
      SameBagNoRepeats(unique, endpoints);
      r := TryGasPrices(book, expected, own, endpoints, probes,
                        Attempts(chainIds, expected, own, endpoints, probes), chainIds, book.log);
    }
  }

  lemma SameIdAsAtTheStart(
      chainIds: map<string, int>, expected: Option<int>, own: Option<string>,
      ordered: seq<string>, probes: nat -> Probe, m: nat)
    requires m < |ordered| && NoRepeats(ordered)
    ensures var after := LearnAll(chainIds, expected, own, ordered, probes, m);
            var e := ordered[m];
            (e in after <==> e in chainIds) && (e in chainIds ==> after[e] == chainIds[e])
  {
    LearntIdsAreReported(chainIds, expected, own, ordered, probes, m, ordered[m]);
  }

  /** A rearrangement of a list without repetitions has none either. */
  lemma SameBagNoRepeats(a: seq<string>, b: seq<string>)
    requires multiset(a) == multiset(b) && NoRepeats(a)
    ensures NoRepeats(b)
  {
    forall i, j | 0 <= i < j < |b| ensures b[i] != b[j] {
      assert b == b[..i] + [b[i]] + b[i + 1..j] + [b[j]] + b[j + 1..];
      NoRepeatsCount(a, b[i]);
    }
  }

  lemma {:induction false} NoRepeatsCount(a: seq<string>, x: string)
    requires NoRepeats(a)
    ensures multiset(a)[x] <= 1
  {
    if a != [] {
      var n := |a| - 1;
      NoRepeatsCount(a[..n], x);
      assert a == a[..n] + [a[n]];
      assert a[n] !in a[..n];
    }
  }
}
