/** What whole requests leave behind: who answers, who is blamed, which urls are
    asked, and when an endpoint is left out for a while. */
module FailoverRecords {
  import opened Wrappers
  import opened EndpointHealth
  import opened Failover

  // ------------------------------------------------------------- the answer

  ghost predicate AllFail<T>(attempts: nat -> Attempt<T>, n: nat) {
    forall i: nat :: i < n ==> attempts(i).result.Err?
  }

  /** The first endpoint that does not fail gives the answer, and is the last one
      tried; when all fail, the last error is thrown. */
  lemma TheFirstSuccessAnswers<T>(attempts: nat -> Attempt<T>, n: nat, k: nat)
    requires k <= n && AllFail(attempts, k) && (k < n ==> attempts(k).result.Ok?)
    ensures Answer(attempts, n) == if k < n then attempts(k).result
                                   else if n > 0 then attempts(n - 1).result else Err(NoEndpoints)
    ensures Tried(attempts, n) == if k < n then k + 1 else n
  {
    assert Failures(attempts, n) == k;
  }

  // ------------------------------------------------------------- the records

  /** An endpoint's events with one more among them, right after `before`. */
  ghost predicate Gains(own: seq<Event>, others: seq<Event>, before: seq<Event>, e: Event) {
    exists after: seq<Event> :: own == before + [e] + after && others == before + after
  }

  /** Every endpoint tried is blamed for its own failure, at its own time, and the
      one that answers is credited with a success, each exactly once and in its turn
      among what other requests record; an endpoint not reached gains nothing. */
  lemma OutcomesAreRecorded<T>(kind: Kind, ordered: seq<string>, attempts: nat -> Attempt<T>, i: nat)
    requires NoRepeats(ordered) && i < |ordered|
    ensures var m, id, a := Tried(attempts, |ordered|), Id(kind, ordered[i]), attempts(i);
            var own, others := Of(Trail(kind, ordered, attempts, m), id), Of(Others(attempts, m), id);
            if !AllFail(attempts, i) then own == others
            else if a.result.Ok? then own == others + [Succeeded(a.finishedAt)]
            else Gains(own, others, Of(Others(attempts, i + 1), id), Failed(a.finishedAt, a.result.error))
  {
    var n := |ordered|;
    var k := Failures(attempts, n);
    assert AllFail(attempts, k);
    TheFirstSuccessAnswers(attempts, n, k);
    var id := Id(kind, ordered[i]);
    TriedEndpointsAreRecorded(kind, ordered, attempts, Tried(attempts, n), i, id, Of(Others(attempts, i + 1), id));
    if k < i {
      assert attempts(k).result.Ok?;
    }
  }

  /** After m attempts: nothing for an endpoint whose turn has not come, one event,
      its own, for one that has been tried. */
  ghost predicate RecordedAs<T>(
      own: seq<Event>, others: seq<Event>, before: seq<Event>, a: Attempt<T>, m: nat, i: nat)
  {
    var e := if a.result.Ok? then Succeeded(a.finishedAt) else Failed(a.finishedAt, a.result.error);
    && (m <= i ==> own == others)
    && (m == i + 1 ==> own == others + [e])
    && (i < m ==> Gains(own, others, before, e))
  }

  lemma {:induction false} TriedEndpointsAreRecorded<T>(
      kind: Kind, ordered: seq<string>, attempts: nat -> Attempt<T>, m: nat, i: nat, id: Id, before: seq<Event>)
    requires NoRepeats(ordered) && m <= |ordered| && i < |ordered| && id == Id(kind, ordered[i])
    requires before == Of(Others(attempts, i + 1), id)
    ensures RecordedAs(Of(Trail(kind, ordered, attempts, m), id), Of(Others(attempts, m), id),
                       before, attempts(i), m, i)
  {
    if m == 0 {
      NothingIsRecordedYet(kind, ordered, attempts, i, id, before);
    } else {
      TriedEndpointsAreRecorded(kind, ordered, attempts, m - 1, i, id, before);
      AttemptIsRecorded(kind, ordered, attempts, m, i, id, before);
    }
  }

  lemma NothingIsRecordedYet<T>(
      kind: Kind, ordered: seq<string>, attempts: nat -> Attempt<T>, i: nat, id: Id, before: seq<Event>)
    ensures RecordedAs(Of(Trail(kind, ordered, attempts, 0), id), Of(Others(attempts, 0), id),
                       before, attempts(i), 0, i)
  {
  }

  lemma AttemptIsRecorded<T>(
      kind: Kind, ordered: seq<string>, attempts: nat -> Attempt<T>, m: nat, i: nat, id: Id, before: seq<Event>)
    requires NoRepeats(ordered) && 0 < m <= |ordered| && i < |ordered| && id == Id(kind, ordered[i])
    requires before == Of(Others(attempts, i + 1), id)
    requires RecordedAs(Of(Trail(kind, ordered, attempts, m - 1), id), Of(Others(attempts, m - 1), id),
                        before, attempts(i), m - 1, i)
    ensures RecordedAs(Of(Trail(kind, ordered, attempts, m), id), Of(Others(attempts, m), id),
                       before, attempts(i), m, i)
  {
    TrailStep(kind, ordered, attempts, m, id);
    OneMoreAttempt(
      Of(Trail(kind, ordered, attempts, m - 1), id), Of(Others(attempts, m - 1), id), Of(attempts(m - 1).others, id),
      before, attempts(i), m, i, Of(Trail(kind, ordered, attempts, m), id), EventOf(attempts(m - 1)));
  }

  lemma OneMoreAttempt<T>(
      own: seq<Event>, others: seq<Event>, foreign: seq<Event>, before: seq<Event>, a: Attempt<T>, m: nat, i: nat,
      next: seq<Event>, e: Event)
    requires m > 0 && RecordedAs(own, others, before, a, m - 1, i)
    requires next == own + foreign + (if m == i + 1 then [e] else [])
    requires m == i + 1 ==> e == EventOf(a) && before == others + foreign
    ensures RecordedAs(next, others + foreign, before, a, m, i)
  {
    if i < m - 1 {
      GainsAndMore(own, others, before, EventOf(a), foreign);
    } else if m == i + 1 {
      GainsAtTheEnd(others + foreign, e);
    }
  }

  lemma GainsAndMore(own: seq<Event>, others: seq<Event>, before: seq<Event>, e: Event, more: seq<Event>)
    requires Gains(own, others, before, e)
    ensures Gains(own + more + [], others + more, before, e)
  {
    var after :| own == before + [e] + after && others == before + after;
    assert own + more + [] == before + [e] + (after + more) && others + more == before + (after + more);
  }

  lemma GainsAtTheEnd(others: seq<Event>, e: Event)
    ensures Gains(others + [e], others, others, e)
  {
    assert others + [e] == others + [e] + [] && others == others + [];
  }

  // -------------------------------------------------------------- cooling down

  /** One request: the endpoints in the order tried, and how the attempts go. */
  datatype Request<T> = Request(ordered: seq<string>, attempts: nat -> Attempt<T>)

  function After<T>(log: seq<Entry>, kind: Kind, q: Request<T>): seq<Entry> {
    log + Trail(kind, q.ordered, q.attempts, Tried(q.attempts, |q.ordered|))
  }

  /** In this request endpoint number i is reached, and nobody else records
      anything on it meanwhile. */
  ghost predicate Reaches<T>(q: Request<T>, kind: Kind, endpoint: string, i: nat) {
    && NoRepeats(q.ordered) && i < |q.ordered| && q.ordered[i] == endpoint && AllFail(q.attempts, i)
    && Of(Others(q.attempts, Tried(q.attempts, |q.ordered|)), Id(kind, endpoint)) == []
  }

  lemma RequestRecords<T>(log: seq<Entry>, kind: Kind, q: Request<T>, endpoint: string, i: nat)
    requires Reaches(q, kind, endpoint, i)
    ensures var id, a := Id(kind, endpoint), q.attempts(i);
            Of(After(log, kind, q), id) == Of(log, id)
              + [if a.result.Ok? then Succeeded(a.finishedAt) else Failed(a.finishedAt, a.result.error)]
  {
    var id, m := Id(kind, endpoint), Tried(q.attempts, |q.ordered|);
    OutcomesAreRecorded(kind, q.ordered, q.attempts, i);
    OfAppend(log, Trail(kind, q.ordered, q.attempts, m), id);
  }

  /** An endpoint that fails in three requests one after the other is left for last
      until thirty seconds after its last failure, whatever happened before. */
  lemma ThreeFailuresCoolDown<T>(
      log: seq<Entry>, kind: Kind, endpoint: string, q: Request<T>, q': Request<T>, q'': Request<T>,
      i: nat, i': nat, i'': nat, now: nat)
    requires Reaches(q, kind, endpoint, i) && q.attempts(i).result.Err?
    requires Reaches(q', kind, endpoint, i') && q'.attempts(i').result.Err?
    requires Reaches(q'', kind, endpoint, i'') && q''.attempts(i'').result.Err?
    ensures var later := After(After(After(log, kind, q), kind, q'), kind, q'');
            InCooldown(Replay(Of(later, Id(kind, endpoint))), now) <==> now < q''.attempts(i'').finishedAt + 30000
  {
    var id := Id(kind, endpoint);
    var log1 := After(log, kind, q);
    var log2 := After(log1, kind, q');
    RequestRecords(log, kind, q, endpoint, i);
    RequestRecords(log1, kind, q', endpoint, i');
    RequestRecords(log2, kind, q'', endpoint, i'');
    var a, a', a'' := q.attempts(i), q'.attempts(i'), q''.attempts(i'');
    ThreeFailures(Of(log, id), Failed(a.finishedAt, a.result.error), Failed(a'.finishedAt, a'.result.error),
                  Failed(a''.finishedAt, a''.result.error), now);
  }

  lemma ThreeFailures(events: seq<Event>, e: Event, e': Event, e'': Event, now: nat)
    requires e.Failed? && e'.Failed? && e''.Failed?
    ensures InCooldown(Replay(events + [e] + [e'] + [e'']), now) <==> now < e''.at + 30000
  {
    FailureLengthensTheStreak(events, e);
    FailureLengthensTheStreak(events + [e], e');
    FailureLengthensTheStreak(events + [e] + [e'], e'');
    CooldownIsAboutTheStreak(events + [e] + [e'] + [e''], now);
  }

  lemma FailureLengthensTheStreak(events: seq<Event>, e: Event)
    requires e.Failed?
    ensures Streak(events + [e]) == Streak(events) + 1
  {
    assert (events + [e])[..|events|] == events;
  }

  /** An endpoint that answers is not left for last any more. */
  lemma AnAnswerEndsTheCooldown<T>(log: seq<Entry>, kind: Kind, endpoint: string, q: Request<T>, i: nat, now: nat)
    requires Reaches(q, kind, endpoint, i) && q.attempts(i).result.Ok?
    ensures !InCooldown(Replay(Of(After(log, kind, q), Id(kind, endpoint))), now)
  {
    RequestRecords(log, kind, q, endpoint, i);
    CooldownIsAboutTheStreak(Of(After(log, kind, q), Id(kind, endpoint)), now);
  }

  // ----------------------------------------------------------- the gas price

  /** The url that stands for the caller's own provider. */
  predicate StandsForPrimary(config: RpcConfig, primary: Primary, url: string) {
    primary.Primary? &&
    match primary.url
    case Some(own) => url == own
    case None => if config.ethRpcUrl.Some? then url == config.ethRpcUrl.value else url == "__primary_provider__"
  }

  /** Which urls are asked for the gas price. Where read urls are configured, those
      and no other, so the caller's provider only if it is one of them. Otherwise the
      caller's own provider, in front, and the configured endpoint. */
  lemma WhoIsAskedForThePrice(config: RpcConfig, primary: Primary)
    ensures var asked := Unique(Candidates(config, primary));
            if config.readRpcUrls.Some? && config.readRpcUrls.value != []
            then forall url :: url in asked <==> url in config.readRpcUrls.value && url != ""
            else
              && (forall url :: url in asked <==>
                    url != "" && (config.ethRpcUrl == Some(url) || StandsForPrimary(config, primary, url)))
              && (forall url :: url != "" && StandsForPrimary(config, primary, url) ==> asked[0] == url)
  {
    UniqueEndpointsAreTheSameSet(Candidates(config, primary));
    if HasReadUrls(config) {
      UniqueEndpointsAreTheSameSet(config.readRpcUrls.value);
    } else {
      if config.ethRpcUrl.Some? {
        UniqueEndpointsAreTheSameSet([config.ethRpcUrl.value]);
      }
      if primary.Primary? && PrimaryEndpoint(config, primary) != "" {
        FirstStaysFirst(Candidates(config, primary));
      }
    }
  }

  lemma {:induction false} FirstStaysFirst(endpoints: seq<string>)
    requires endpoints != [] && endpoints[0] != ""
    ensures Unique(endpoints) != [] && Unique(endpoints)[0] == endpoints[0]
  {
    if |endpoints| > 1 {
      FirstStaysFirst(endpoints[..|endpoints| - 1]);
    }
  }

  /** What an endpoint comes to when chain ids are what they are reported to be: the
      caller's own provider, tried first, by its price alone; any other by its price
      if it is on the expected chain, by an error that names its chain if not, and by
      its own error if its chain is neither known nor reported. */
  lemma EveryEndpointIsJudged(
      chainIds: map<string, int>, expected: int, config: RpcConfig, primary: Primary,
      ordered: seq<string>, probes: nat -> Probe, chainOf: string -> int, i: nat)
    requires NoRepeats(ordered) && i < |ordered|
    requires forall e :: e in chainIds ==> chainIds[e] == chainOf(e)
    requires probes(i).network.Ok? ==> probes(i).network.value == chainOf(ordered[i])
    ensures var e, p := ordered[i], probes(i);
            var r := Attempts(chainIds, Some(expected), Own(config, primary), ordered, probes)(i).result;
            if i == 0 && StandsForPrimary(config, primary, e) then r == p.gasPrice
            else if e !in chainIds && p.network.Err? then r == Err(p.network.error)
            else if chainOf(e) == expected then r == p.gasPrice
            else r == Err(WrongChain(e, chainOf(e)))
  {
  }
}
