/** The circuit breaker kept per endpoint, and the order in which a request
    tries its endpoints. */
module EndpointHealth {
  import opened Wrappers
  import opened Text

  datatype Kind = Subgraph | ReadRpc

  datatype Health = Health(
    consecutiveFailures: nat, cooldownUntil: Option<nat>, lastSuccessAt: Option<nat>, lastError: Option<Error>)

  /** Why an attempt failed: the transport's own message, or one of the two
      errors the loops raise themselves. */
  datatype Error = Raised(message: string) | WrongChain(endpoint: string, chainId: int) | NoEndpoints

  datatype Event = Succeeded(at: nat) | Failed(at: nat, error: Error)

  /** What the health map is keyed by. The program writes it as one string,
      and EndpointKeyIsInjective says that nothing is lost by doing so. */
  datatype Id = Id(kind: Kind, endpoint: string)

  /** One recorded outcome: whose, and what happened. */
  datatype Entry = Entry(id: Id, event: Event)

  const FAILURE_THRESHOLD: nat := 3
  const COOLDOWN_MS: nat := 30000

  function KindName(kind: Kind): string {
    match kind case Subgraph => "subgraph" case ReadRpc => "read-rpc"
  }

  function EndpointKey(id: Id): string {
    KindName(id.kind) + ":" + id.endpoint
  }

  /** The two kinds share one map and never see each other's entries. */
  lemma EndpointKeyIsInjective(a: Id, b: Id)
    ensures EndpointKey(a) == EndpointKey(b) <==> a == b
  {
    if EndpointKey(a) == EndpointKey(b) {
      assert NoColon(KindName(a.kind)) && NoColon(KindName(b.kind));
      FirstPartIsUnique(KindName(a.kind), a.endpoint, KindName(b.kind), b.endpoint);
      assert KindName(a.kind)[0] == KindName(b.kind)[0];
    }
  }

  const FRESH := Health(0, None, None, None)

  function Record(h: Health, e: Event): Health {
    match e
    case Succeeded(at) => Health(0, None, Some(at), None)
    case Failed(at, error) =>
      var failures := h.consecutiveFailures + 1;
      h.(consecutiveFailures := failures, lastError := Some(error),
         cooldownUntil := if failures >= FAILURE_THRESHOLD then Some(at + COOLDOWN_MS) else h.cooldownUntil)
  }

  function Replay(events: seq<Event>): Health {
    if events == [] then FRESH
    else Record(Replay(events[..|events| - 1]), events[|events| - 1])
  }

  /** The events of one endpoint, in order. */
  function Of(log: seq<Entry>, id: Id): seq<Event> {
    if log == [] then []
    else Of(log[..|log| - 1], id) + if log[|log| - 1].id == id then [log[|log| - 1].event] else []
  }

  predicate InCooldown(h: Health, now: nat) {
    h.cooldownUntil.Some? && h.cooldownUntil.value > now
  }

  /** How many failures the history ends with. */
  function Streak(events: seq<Event>): nat {
    if events == [] || events[|events| - 1].Succeeded? then 0 else 1 + Streak(events[..|events| - 1])
  }

  function LastSuccess(events: seq<Event>): Option<nat> {
    if events == [] then None
    else
      var last := events[|events| - 1];
      if last.Succeeded? then Some(last.at) else LastSuccess(events[..|events| - 1])
  }

  /** The breaker, said without its state: an endpoint cools down exactly while
      its current failure streak has reached the threshold and less than the
      cooldown has passed since the last failure. Its record shows the error that
      the history ends with and the time of the latest success. */
  lemma {:induction false} CooldownIsAboutTheStreak(events: seq<Event>, now: nat)
    ensures Replay(events).consecutiveFailures == Streak(events)
    ensures InCooldown(Replay(events), now) <==>
              Streak(events) >= FAILURE_THRESHOLD && now < events[|events| - 1].at + COOLDOWN_MS
    ensures Streak(events) < FAILURE_THRESHOLD ==> Replay(events).cooldownUntil.None?
    ensures Replay(events).lastError == if Streak(events) > 0 then Some(events[|events| - 1].error) else None
    ensures Replay(events).lastSuccessAt == LastSuccess(events)
  {
    if events != [] {
      CooldownIsAboutTheStreak(events[..|events| - 1], now);
    }
  }

  // ---------------------------------------------------------------- ordering

  function Pick(endpoints: seq<string>, p: string -> bool): seq<string> {
    if endpoints == [] then []
    else
      var n := |endpoints| - 1;
      Pick(endpoints[..n], p) + if p(endpoints[n]) then [endpoints[n]] else []
  }

  lemma {:induction false} PickedHaveP(s: seq<string>, p: string -> bool)
    ensures forall i :: 0 <= i < |Pick(s, p)| ==> p(Pick(s, p)[i])
    ensures Pick(s, p) == [] ==> forall i :: 0 <= i < |s| ==> !p(s[i])
  {
    if s != [] {
      PickedHaveP(s[..|s| - 1], p);
      assert s == s[..|s| - 1] + [s[|s| - 1]];
    }
  }

  function Not(p: string -> bool): string -> bool { e => !p(e) }

  function Ordered(endpoints: seq<string>, cooling: string -> bool): seq<string> {
    Pick(endpoints, Not(cooling)) + Pick(endpoints, cooling)
  }

  lemma {:induction false} PickAll(s: seq<string>, p: string -> bool)
    requires forall i :: 0 <= i < |s| ==> p(s[i])
    ensures Pick(s, p) == s
  {
    if s != [] {
      PickAll(s[..|s| - 1], p);
      assert s == s[..|s| - 1] + [s[|s| - 1]];
    }
  }

  lemma {:induction false} PickNone(s: seq<string>, p: string -> bool)
    requires forall i :: 0 <= i < |s| ==> !p(s[i])
    ensures Pick(s, p) == []
  {
    if s != [] {
      PickNone(s[..|s| - 1], p);
    }
  }

  lemma {:induction false} PickSplits(s: seq<string>, p: string -> bool)
    ensures multiset(Pick(s, Not(p))) + multiset(Pick(s, p)) == multiset(s)
  {
    if s != [] {
      var front, last := s[..|s| - 1], s[|s| - 1];
      assert s == front + [last];
      PickSplits(front, p);
      SplitsOneMore(Pick(front, Not(p)), Pick(front, p), front, last, p(last));
    }
  }

  /** One more element goes to one side or the other. */
  lemma SplitsOneMore<T>(a: seq<T>, b: seq<T>, s: seq<T>, last: T, right: bool)
    requires multiset(a) + multiset(b) == multiset(s)
    ensures multiset(a + if right then [] else [last]) + multiset(b + if right then [last] else [])
         == multiset(s + [last])
  {
  }

  lemma {:induction false} PickAppend(s: seq<string>, t: seq<string>, p: string -> bool)
    ensures Pick(s + t, p) == Pick(s, p) + Pick(t, p)
  {
    if t == [] {
      assert s + t == s;
    } else {
      var n := |t| - 1;
      var last := if p(t[n]) then [t[n]] else [];
      PickAppend(s, t[..n], p);
      assert (s + t)[..|s| + n] == s + t[..n] && (s + t)[|s| + n] == t[n];
      assert Pick(s + t, p) == Pick(s + t[..n], p) + last;
      assert Pick(s, p) + Pick(t, p) == Pick(s, p) + Pick(t[..n], p) + last;
    }
  }

  /** Healthy endpoints come first, and each group keeps its configured order. */
  lemma OrderIsStable(endpoints: seq<string>, cooling: string -> bool)
    ensures var r := Ordered(endpoints, cooling);
            && Pick(r, cooling) == Pick(endpoints, cooling)
            && Pick(r, Not(cooling)) == Pick(endpoints, Not(cooling))
            && (forall i, j :: 0 <= i < j < |r| && cooling(r[i]) ==> cooling(r[j]))
  {
    var a, b := Pick(endpoints, Not(cooling)), Pick(endpoints, cooling);
    PickedHaveP(endpoints, Not(cooling));
    PickedHaveP(endpoints, cooling);
    PickAppend(a, b, cooling);
    PickAppend(a, b, Not(cooling));
    PickAll(a, Not(cooling));
    PickNone(a, cooling);
    PickAll(b, cooling);
    PickNone(b, Not(cooling));
  }

  /** No endpoint is dropped, added or repeated. */
  lemma OrderIsAPermutation(endpoints: seq<string>, cooling: string -> bool)
    ensures multiset(Ordered(endpoints, cooling)) == multiset(endpoints)
  {
    PickSplits(endpoints, cooling);
  }

  /** With every endpoint cooling down the configured order is used. */
  lemma AllCoolingKeepsTheOrder(endpoints: seq<string>, cooling: string -> bool)
    requires Pick(endpoints, Not(cooling)) == []
    ensures Ordered(endpoints, cooling) == endpoints
  {
    PickedHaveP(endpoints, Not(cooling));
    PickAll(endpoints, cooling);
  }

  lemma OfSnoc(log: seq<Entry>, entry: Entry, id: Id)
    ensures Of(log + [entry], id) == if entry.id == id then Of(log, id) + [entry.event] else Of(log, id)
  {
    assert (log + [entry])[..|log|] == log;
  }

  lemma ReplaySnoc(events: seq<Event>, e: Event)
    ensures Replay(events + [e]) == Record(Replay(events), e)
  {
    assert (events + [e])[..|events|] == events;
  }

  // --------------------------------------------------------------- the class

  /** The module-level health map. `log` is everything recorded so far. */
  class HealthBook {
    var states: map<Id, Health>
    ghost var log: seq<Entry>

    ghost predicate Valid()
      reads this
    {
      forall id :: Replay(Of(log, id)) == if id in states then states[id] else FRESH
    }

    ghost function Cooling(kind: Kind, endpoint: string, now: nat): bool
      reads this
    {
      InCooldown(Replay(Of(log, Id(kind, endpoint))), now)
    }

    constructor ()
      ensures Valid() && log == []
    {
      states, log := map[], [];
    }

    method Put(id: Id, event: Event)
      requires Valid()
      modifies this
      ensures Valid() && log == old(log) + [Entry(id, event)]
    {
      var state := if id in states then states[id] else FRESH;
      states := states[id := Record(state, event)];
      forall other {
        OfSnoc(log, Entry(id, event), other);
      }
      ReplaySnoc(Of(log, id), event);
      log := log + [Entry(id, event)];
    }

    method RecordEndpointSuccess(kind: Kind, endpoint: string, now: nat)
      requires Valid()
      modifies this
      ensures Valid() && log == old(log) + [Entry(Id(kind, endpoint), Succeeded(now))]
    {
      Put(Id(kind, endpoint), Succeeded(now));
    }

    method RecordEndpointFailure(kind: Kind, endpoint: string, error: Error, now: nat)
      requires Valid()
      modifies this
      ensures Valid() && log == old(log) + [Entry(Id(kind, endpoint), Failed(now, error))]
    {
      Put(Id(kind, endpoint), Failed(now, error));
    }

    /** Recordings made by other requests while this one is waiting. */
    method RecordAll(entries: seq<Entry>)
      requires Valid()
      modifies this
      ensures Valid() && log == old(log) + entries
    {
      for i := 0 to |entries|
        invariant Valid() && log == old(log) + entries[..i]
      {
        Put(entries[i].id, entries[i].event);
      }
    }

    method IsEndpointInCooldown(kind: Kind, endpoint: string, now: nat) returns (b: bool)
      requires Valid()
      ensures b == Cooling(kind, endpoint, now)
    {
      var id := Id(kind, endpoint);
      assert Replay(Of(log, id)) == if id in states then states[id] else FRESH;
      b := id in states && states[id].cooldownUntil.Some? && states[id].cooldownUntil.value > now;
    }

    method OrderEndpointsByHealth(kind: Kind, endpoints: seq<string>, now: nat, ghost cooling: string -> bool)
      returns (r: seq<string>)
      requires Valid() && forall e :: cooling(e) == Cooling(kind, e, now)
      ensures r == Ordered(endpoints, cooling)
    {
      ghost var healthyOnes := Not(cooling);
      var healthy, coolingDown := [], [];
      for i := 0 to |endpoints|
        invariant healthy == Pick(endpoints[..i], healthyOnes)
        invariant coolingDown == Pick(endpoints[..i], cooling)
      {
        assert endpoints[..i + 1][..i] == endpoints[..i];
        var cool := IsEndpointInCooldown(kind, endpoints[i], now);
        if cool {
          coolingDown := coolingDown + [endpoints[i]];
        } else {
          healthy := healthy + [endpoints[i]];
        }
      }
      assert endpoints[..|endpoints|] == endpoints;
      if |healthy| > 0 {
        return healthy + coolingDown;
      }
      AllCoolingKeepsTheOrder(endpoints, cooling);
      return endpoints;
    }
  }
}
