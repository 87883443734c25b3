/** The resolver that turns the operator's take-policy fields into the one
    policy that the keeper consumes. */
module RoutePolicy {
  import opened Wrappers

  datatype LiquiditySource = NONE | ONEINCH | UNISWAPV3 | SUSHISWAP | CURVE | LIFI | SUSHI_AGGREGATOR

  datatype Path = DirectDex | CalldataAggregator

  datatype Provider = Lifi | SushiAggregator | OneInch

  datatype SelectionMode = MaximizeProfit | DirectDexFirst

  datatype FallbackMode = Disabled | FallbackDirectDexFirst

  /** One item of a configured list: a supported name, or anything else. */
  datatype Raw<T> = Named(value: T) | Unknown

  datatype ListError = Empty | Unsupported | Duplicate

  datatype PolicyError = BadPaths(ListError) | BadProviders(ListError) | ProvidersWithoutTheFamily

  /** The optional fields; of the amounts only their presence matters. */
  datatype TakePolicy = TakePolicy(
    paths: Option<seq<Raw<Path>>>, providers: Option<seq<Raw<Provider>>>,
    allowedSources: Option<seq<LiquiditySource>>, directDexDefault: Option<LiquiditySource>,
    selectionMode: Option<SelectionMode>, fallbackMode: Option<FallbackMode>,
    maxGasCostNative: bool, maxGasCostQuote: bool, minExpectedProfitQuote: bool, minProfitNative: bool)

  datatype Fallback =
    | Eligible
    | FallbackDisabled | NotMaximizingProfit | NotHybrid | NoNativeGasCap
    | QuoteGasCapSet | QuoteProfitSet | NativeProfitSet

  datatype Policy = Policy(
    paths: seq<Path>, providers: seq<Provider>, directDexSources: seq<LiquiditySource>,
    directDexDefault: Option<LiquiditySource>, mode: SelectionMode, routeCount: nat,
    netProfitRanking: bool, selectorEnabled: bool, fallback: Fallback, pathsConfigured: bool)

  // -------------------------------------------------------------------- lists

  ghost predicate NoRepeats<T>(s: seq<T>) {
    forall i, j :: 0 <= i < j < |s| ==> s[i] != s[j]
  }

  /** The names of a list, up to its first unsupported or repeated item. */
  function Scan<T(==)>(raw: seq<Raw<T>>): Result<seq<T>, ListError> {
    if raw == [] then Ok([])
    else
      var front, last := Scan(raw[..|raw| - 1]), raw[|raw| - 1];
      if front.Err? then front
      else if last.Unknown? then Err(Unsupported)
      else if last.value in front.value then Err(Duplicate)
      else Ok(front.value + [last.value])
  }

  function CheckedList<T(==)>(raw: seq<Raw<T>>): Result<seq<T>, ListError> {
    if raw == [] then Err(Empty) else Scan(raw)
  }

  /** A list is accepted exactly when all its items are supported and differ, and
      then stands for its own names in its own order. */
  lemma {:induction false} ScanAccepts<T>(raw: seq<Raw<T>>)
    ensures Scan(raw).Ok? <==> (forall i :: 0 <= i < |raw| ==> raw[i].Named?) && NoRepeats(raw)
    ensures Scan(raw).Ok? ==>
      && |Scan(raw).value| == |raw| && NoRepeats(Scan(raw).value)
      && forall i :: 0 <= i < |raw| ==> raw[i] == Named(Scan(raw).value[i])
  {
    if raw != [] {
      var n := |raw| - 1;
      var front := raw[..n];
      ScanAccepts(front);
      if Scan(front).Ok? && raw[n].Named? && raw[n].value in Scan(front).value {
        var i :| 0 <= i < n && Scan(front).value[i] == raw[n].value;
        assert front[i] == raw[i] == raw[n];
      }
      if Scan(front).Err? && NoRepeats(raw) {
        assert NoRepeats(front);
        assert exists i :: 0 <= i < n && !front[i].Named?;
      }
    }
  }

  /** The duplicate-checking loop over one of the lists. */
  method CheckList<T(==)>(raw: seq<Raw<T>>) returns (r: Result<seq<T>, ListError>)
    ensures r == CheckedList(raw)
  {
    if |raw| == 0 {
      return Err(Empty);
    }
    var seen: seq<T> := [];            // a Set, which keeps insertion order
    for i := 0 to |raw|
      invariant Scan(raw[..i]) == Ok(seen)
    {
      assert raw[..i + 1][..i] == raw[..i];
      if raw[i].Unknown? {
        ErrorsStay(raw, i + 1);
        return Err(Unsupported);
      }
      if raw[i].value in seen {
        ErrorsStay(raw, i + 1);
        return Err(Duplicate);
      }
      seen := seen + [raw[i].value];
    }
    assert raw[..|raw|] == raw;
    r := Ok(seen);
  }

  lemma {:induction false} ErrorsStay<T>(raw: seq<Raw<T>>, n: nat)
    requires n <= |raw| && Scan(raw[..n]).Err?
    ensures Scan(raw) == Scan(raw[..n])
    decreases |raw| - n
  {
    if n < |raw| {
      assert raw[..n + 1][..n] == raw[..n];
      ErrorsStay(raw, n + 1);
    } else {
      assert raw[..n] == raw;
    }
  }

  /** The items before number i are supported and differ. */
  ghost predicate GoodUpTo<T>(raw: seq<Raw<T>>, i: nat) {
    i <= |raw| && NoRepeats(raw[..i]) && forall j :: 0 <= j < i ==> raw[j].Named?
  }

  /** A rejected list is empty, or is told by its first item that is unsupported or
      repeats an earlier one. */
  lemma {:induction false} TheFirstOffenceIsReported<T>(raw: seq<Raw<T>>) returns (i: nat)
    requires CheckedList(raw).Err?
    ensures if raw == [] then CheckedList(raw).error == Empty
            else GoodUpTo(raw, i) && i < |raw| &&
                 if raw[i].Unknown? then CheckedList(raw).error == Unsupported
                 else raw[i] in raw[..i] && CheckedList(raw).error == Duplicate
  {
    i := 0;
    if raw != [] {
      i := FirstOffence(raw);
      if raw[i].Unknown? || raw[i] in raw[..i] {
        assert raw[..i + 1][..i] == raw[..i];
        ScanAccepts(raw[..i]);
        ErrorsStay(raw, i + 1);
      }
    }
  }

  lemma {:induction false} FirstOffence<T>(raw: seq<Raw<T>>) returns (i: nat)
    requires Scan(raw).Err?
    ensures GoodUpTo(raw, i) && i < |raw| && (raw[i].Unknown? || raw[i] in raw[..i])
  {
    var n := |raw| - 1;
    var front := raw[..n];
    if Scan(front).Err? {
      i := FirstOffence(front);
      assert front[..i] == raw[..i];
    } else {
      i := n;
      ScanAccepts(front);
    }
  }

  // ------------------------------------------------------------- descriptors

  function PathOf(source: LiquiditySource): Option<Path> {
    match source
    case UNISWAPV3 => Some(DirectDex)
    case CURVE => Some(DirectDex)
    case LIFI => Some(CalldataAggregator)
    case SUSHI_AGGREGATOR => Some(CalldataAggregator)
    case ONEINCH => Some(CalldataAggregator)
    case _ => None
  }

  function ProviderFor(source: Option<LiquiditySource>): Option<Provider> {
    match source
    case Some(LIFI) => Some(Lifi)
    case Some(SUSHI_AGGREGATOR) => Some(SushiAggregator)
    case Some(ONEINCH) => Some(OneInch)
    case _ => None
  }

  predicate IsDirectDex(source: LiquiditySource) { PathOf(source) == Some(DirectDex) }

  // ---------------------------------------------------------------- resolvers

  /** Array.from(new Set(list)). */
  function Distinct<T(==)>(s: seq<T>): seq<T> {
    if s == [] then []
    else
      var front, last := Distinct(s[..|s| - 1]), s[|s| - 1];
      if last in front then front else front + [last]
  }

  lemma {:induction false} DistinctNames<T>(s: seq<T>)
    ensures NoRepeats(Distinct(s)) && (forall x :: x in Distinct(s) <==> x in s)
    ensures NoRepeats(s) ==> Distinct(s) == s
  {
    if s != [] {
      DistinctNames(s[..|s| - 1]);
      assert s == s[..|s| - 1] + [s[|s| - 1]];
    }
  }

  function OnlyDirectDex(sources: seq<LiquiditySource>): seq<LiquiditySource> {
    if sources == [] then []
    else
      var front, last := OnlyDirectDex(sources[..|sources| - 1]), sources[|sources| - 1];
      if IsDirectDex(last) then front + [last] else front
  }

  lemma {:induction false} FilteringKeepsOrder(sources: seq<LiquiditySource>)
    requires NoRepeats(sources)
    ensures NoRepeats(OnlyDirectDex(sources))
    ensures forall x :: x in OnlyDirectDex(sources) <==> x in sources && IsDirectDex(x)
  {
    if sources != [] {
      FilteringKeepsOrder(sources[..|sources| - 1]);
      assert sources == sources[..|sources| - 1] + [sources[|sources| - 1]];
    }
  }

  function ResolvePaths(source: Option<LiquiditySource>, allowed: Option<seq<Path>>): seq<Path> {
    if allowed.Some? then Distinct(allowed.value)
    else if source.Some? && PathOf(source.value).Some? then [PathOf(source.value).value]
    else []
  }

  function DefaultDirectDex(
      source: Option<LiquiditySource>, configured: Option<LiquiditySource>): Option<LiquiditySource>
  {
    if source.Some? && IsDirectDex(source.value) then source
    else if configured.Some? && IsDirectDex(configured.value) then configured
    else None
  }

  function DirectDexSources(source: Option<LiquiditySource>, take: TakePolicy): seq<LiquiditySource> {
    if take.allowedSources.Some? then OnlyDirectDex(Distinct(take.allowedSources.value))
    else
      var d := DefaultDirectDex(source, take.directDexDefault);
      if d.Some? then [d.value] else []
  }

  /** resolveHybridGasQuoteFallbackPolicy. */
  function ResolveFallback(take: TakePolicy, mode: SelectionMode, paths: seq<Path>): Fallback {
    if take.fallbackMode != Some(FallbackDirectDexFirst) then FallbackDisabled
    else if mode != MaximizeProfit then NotMaximizingProfit
    else if DirectDex !in paths || CalldataAggregator !in paths then NotHybrid
    else if !take.maxGasCostNative then NoNativeGasCap
    else if take.maxGasCostQuote then QuoteGasCapSet
    else if take.minExpectedProfitQuote then QuoteProfitSet
    else if take.minProfitNative then NativeProfitSet
    else Eligible
  }

  method CountExternalTakeRoutes(paths: seq<Path>, providers: seq<Provider>) returns (routeCount: nat)
    ensures NoRepeats(providers) ==> routeCount == |Routes(paths, providers)|
    ensures routeCount == RouteCount(paths, providers)
  {
    routeCount := 0;
    if DirectDex in paths {
      routeCount := routeCount + 1;
    }
    if CalldataAggregator in paths {
      routeCount := routeCount + |providers|;
    }
    if NoRepeats(providers) {
      CountIsTheNumberOfRoutes(paths, providers);
    }
  }

  function RouteCount(paths: seq<Path>, providers: seq<Provider>): nat {
    (if DirectDex in paths then 1 else 0) + (if CalldataAggregator in paths then |providers| else 0)
  }

  /** A concrete route: the direct-DEX quote, or one provider's. */
  datatype Route = Direct | Via(provider: Provider)

  ghost function Routes(paths: seq<Path>, providers: seq<Provider>): set<Route> {
    (if DirectDex in paths then {Direct} else {}) +
    (if CalldataAggregator in paths then ViaAll(providers) else {})
  }

  ghost function ViaAll(providers: seq<Provider>): set<Route> {
    if providers == [] then {} else ViaAll(providers[..|providers| - 1]) + {Via(providers[|providers| - 1])}
  }

  lemma {:induction false} ViaAllCounts(providers: seq<Provider>)
    requires NoRepeats(providers)
    ensures |ViaAll(providers)| == |providers| && Direct !in ViaAll(providers)
    ensures forall p :: Via(p) in ViaAll(providers) <==> p in providers
  {
    if providers != [] {
      var front, last := providers[..|providers| - 1], providers[|providers| - 1];
      assert providers == front + [last];
      ViaAllCounts(front);
    }
  }

  lemma CountIsTheNumberOfRoutes(paths: seq<Path>, providers: seq<Provider>)
    requires NoRepeats(providers)
    ensures RouteCount(paths, providers) == |Routes(paths, providers)|
  {
    ViaAllCounts(providers);
  }

  // ------------------------------------------------------------- the resolver

  function ProvidersFor(
      source: Option<LiquiditySource>, familyEnabled: bool, checked: Option<seq<Provider>>): seq<Provider>
  {
    if checked.Some? then checked.value
    else if !familyEnabled then []
    else if ProviderFor(source).Some? then [ProviderFor(source).value]
    else [Lifi]
  }

  /** The policy made of lists that have passed their checks. */
  function Assemble(
      source: Option<LiquiditySource>, take: TakePolicy,
      checkedPaths: Option<seq<Path>>, checkedProviders: Option<seq<Provider>>)
    : Policy
  {
    var paths := ResolvePaths(source, checkedPaths);
    var providers := ProvidersFor(source, CalldataAggregator in paths, checkedProviders);
    var mode := if take.selectionMode.Some? then take.selectionMode.value else MaximizeProfit;
    var routeCount := RouteCount(paths, providers);
    var selectorEnabled := take.paths.Some? || (take.providers.Some? && routeCount > 1);
    Policy(
      paths, providers, DirectDexSources(source, take), DefaultDirectDex(source, take.directDexDefault),
      mode, routeCount,
      selectorEnabled && routeCount > 1 && mode == MaximizeProfit, selectorEnabled,
      ResolveFallback(take, mode, paths), take.paths.Some?)
  }

  /** The error is that of the first check that fails: the paths, the providers,
      the family the providers need. */
  function Resolve(source: Option<LiquiditySource>, take: TakePolicy): Result<Policy, PolicyError> {
    var paths := if take.paths.Some? then CheckedList(take.paths.value) else Ok([]);
    if paths.Err? then Err(BadPaths(paths.error))
    else
      var checkedPaths := if take.paths.Some? then Some(paths.value) else None;
      var providers := if take.providers.Some? then CheckedList(take.providers.value) else Ok([]);
      if providers.Err? then Err(BadProviders(providers.error))
      else if take.providers.Some? && CalldataAggregator !in ResolvePaths(source, checkedPaths)
      then Err(ProvidersWithoutTheFamily)
      else Ok(Assemble(source, take, checkedPaths, if take.providers.Some? then Some(providers.value) else None))
  }

  method ResolveExternalTakePolicy(source: Option<LiquiditySource>, take: TakePolicy)
    returns (r: Result<Policy, PolicyError>)
    ensures r == Resolve(source, take)
  {
    var checkedPaths: Option<seq<Path>> := None;
    if take.paths.Some? {
      var paths := CheckList(take.paths.value);
      if paths.Err? {
        return Err(BadPaths(paths.error));
      }
      checkedPaths := Some(paths.value);
    }
    var paths := ResolvePaths(source, checkedPaths);
    var familyEnabled := CalldataAggregator in paths;

    var providers: seq<Provider>;
    if take.providers.Some? {
      var checked := CheckList(take.providers.value);
      if checked.Err? {
        return Err(BadProviders(checked.error));
      }
      if !familyEnabled {
        return Err(ProvidersWithoutTheFamily);
      }
      providers := checked.value;
    } else {
      providers := ProvidersFor(source, familyEnabled, None);
    }
    var mode := if take.selectionMode.Some? then take.selectionMode.value else MaximizeProfit;
    var routeCount := CountExternalTakeRoutes(paths, providers);
    var selectorEnabled := take.paths.Some? || (take.providers.Some? && routeCount > 1);
    var ranking := selectorEnabled && routeCount > 1 && mode == MaximizeProfit;
    var fallback := ResolveFallback(take, mode, paths);
    r := Ok(Policy(
      paths, providers, DirectDexSources(source, take), DefaultDirectDex(source, take.directDexDefault),
      mode, routeCount,
      ranking, selectorEnabled, fallback, take.paths.Some?));
  }

  // -------------------------------------------------------------- consistency

  /** A configured list that the resolver accepts. */
  ghost predicate GoodList<T>(raw: Option<seq<Raw<T>>>) {
    raw.Some? ==>
      raw.value != [] && NoRepeats(raw.value) && forall i :: 0 <= i < |raw.value| ==> raw.value[i].Named?
  }

  /** The calldata-aggregator family is asked for, by name or through the source. */
  ghost predicate FamilyAsked(source: Option<LiquiditySource>, take: TakePolicy) {
    if take.paths.Some? then Named(CalldataAggregator) in take.paths.value
    else source.Some? && PathOf(source.value) == Some(CalldataAggregator)
  }

  lemma CheckedListAccepts<T>(raw: seq<Raw<T>>)
    ensures CheckedList(raw).Ok? <==> GoodList(Some(raw))
    ensures CheckedList(raw).Ok? ==> CheckedList(raw).value != [] && NoRepeats(CheckedList(raw).value)
    ensures CheckedList(raw).Ok? ==> forall x :: x in CheckedList(raw).value <==> Named(x) in raw
  {
    ScanAccepts(raw);
  }

  /** The configurations that are accepted: both lists non-empty, supported and
      free of repetitions where set, and no providers without their family. */
  lemma AcceptedConfigurations(source: Option<LiquiditySource>, take: TakePolicy)
    ensures Resolve(source, take).Ok? <==>
      GoodList(take.paths) && GoodList(take.providers) && (take.providers.Some? ==> FamilyAsked(source, take))
  {
    ListsAreChecked(take);
    if take.paths.Some? && CheckedList(take.paths.value).Ok? {
      DistinctNames(CheckedList(take.paths.value).value);
    }
  }

  lemma ListsAreChecked(take: TakePolicy)
    ensures take.paths.Some? ==>
      var c := CheckedList(take.paths.value);
      && (c.Ok? <==> GoodList(take.paths))
      && (c.Ok? ==> c.value != [] && NoRepeats(c.value) && forall x :: x in c.value <==> Named(x) in take.paths.value)
    ensures take.providers.Some? ==>
      var c := CheckedList(take.providers.value);
      && (c.Ok? <==> GoodList(take.providers))
      && (c.Ok? ==> c.value != [] && NoRepeats(c.value))
  {
    if take.paths.Some? {
      CheckedListAccepts(take.paths.value);
    }
    if take.providers.Some? {
      CheckedListAccepts(take.providers.value);
    }
  }

  /** What holds of every policy that is handed out. */
  ghost predicate Consistent(p: Policy) {
    && NoRepeats(p.paths) && NoRepeats(p.providers) && NoRepeats(p.directDexSources)
    && (p.providers != [] <==> CalldataAggregator in p.paths)
    && (forall s :: s in p.directDexSources ==> IsDirectDex(s))
    && (p.directDexDefault.Some? ==> IsDirectDex(p.directDexDefault.value))
    && p.routeCount == |Routes(p.paths, p.providers)|
    && (p.netProfitRanking <==> p.selectorEnabled && p.routeCount > 1 && p.mode == MaximizeProfit)
    && (p.pathsConfigured ==> p.selectorEnabled && p.paths != [])
    && (p.fallback == Eligible ==>
          && p.pathsConfigured && DirectDex in p.paths && CalldataAggregator in p.paths
          && p.selectorEnabled && p.netProfitRanking)
  }

  lemma PoliciesAreConsistent(source: Option<LiquiditySource>, take: TakePolicy)
    requires Resolve(source, take).Ok?
    ensures Consistent(Resolve(source, take).value)
  {
    ListsAreChecked(take);
    AssembledIsConsistent(
      source, take,
      if take.paths.Some? then Some(CheckedList(take.paths.value).value) else None,
      if take.providers.Some? then Some(CheckedList(take.providers.value).value) else None);
  }

  lemma AssembledIsConsistent(
      source: Option<LiquiditySource>, take: TakePolicy,
      checkedPaths: Option<seq<Path>>, checkedProviders: Option<seq<Provider>>)
    requires checkedPaths.Some? == take.paths.Some? && checkedProviders.Some? == take.providers.Some?
    requires checkedPaths.Some? ==> checkedPaths.value != []
    requires checkedProviders.Some? ==> checkedProviders.value != [] && NoRepeats(checkedProviders.value)
    requires checkedProviders.Some? ==> CalldataAggregator in ResolvePaths(source, checkedPaths)
    ensures Consistent(Assemble(source, take, checkedPaths, checkedProviders))
  {
    var p := Assemble(source, take, checkedPaths, checkedProviders);
    PathsAreDistinct(source, checkedPaths);
    SourcesAreDirect(source, take);
    CountIsTheNumberOfRoutes(p.paths, p.providers);
  }

  lemma PathsAreDistinct(source: Option<LiquiditySource>, allowed: Option<seq<Path>>)
    ensures var paths := ResolvePaths(source, allowed);
            && NoRepeats(paths) && (allowed.Some? && allowed.value != [] ==> paths != [])
            && (DirectDex in paths && CalldataAggregator in paths ==> allowed.Some?)
  {
    if allowed.Some? {
      DistinctNames(allowed.value);
      assert allowed.value != [] ==> allowed.value[0] in Distinct(allowed.value);
    }
  }

  lemma SourcesAreDirect(source: Option<LiquiditySource>, take: TakePolicy)
    ensures NoRepeats(DirectDexSources(source, take))
    ensures forall s :: s in DirectDexSources(source, take) ==> IsDirectDex(s)
  {
    if take.allowedSources.Some? {
      DistinctNames(take.allowedSources.value);
      FilteringKeepsOrder(Distinct(take.allowedSources.value));
    }
  }

  /** Configured lists stand as they are written; an omitted provider list is the
      source's own provider, or LI.FI where the family was asked for by name. */
  lemma ConfiguredListsStand(source: Option<LiquiditySource>, take: TakePolicy)
    requires Resolve(source, take).Ok?
    ensures var p := Resolve(source, take).value;
            && (take.paths.Some? ==> StandsFor(take.paths.value, p.paths))
            && (take.providers.Some? ==> StandsFor(take.providers.value, p.providers))
            && (take.providers.None? && p.providers != [] ==>
                  p.providers == [if source == Some(SUSHI_AGGREGATOR) then SushiAggregator
                                  else if source == Some(ONEINCH) then OneInch
                                  else Lifi])
  {
    if take.paths.Some? {
      NamesStand(take.paths.value);
    }
    if take.providers.Some? {
      NamesStand(take.providers.value);
    }
    AssembledListsStand(
      source, take,
      if take.paths.Some? then Some(CheckedList(take.paths.value).value) else None,
      if take.providers.Some? then Some(CheckedList(take.providers.value).value) else None);
  }

  lemma AssembledListsStand(
      source: Option<LiquiditySource>, take: TakePolicy,
      checkedPaths: Option<seq<Path>>, checkedProviders: Option<seq<Provider>>)
    requires checkedPaths.Some? ==> NoRepeats(checkedPaths.value)
    ensures var p := Assemble(source, take, checkedPaths, checkedProviders);
            && (checkedPaths.Some? ==> p.paths == checkedPaths.value)
            && (checkedProviders.Some? ==> p.providers == checkedProviders.value)
            && (checkedProviders.None? && p.providers != [] ==>
                  p.providers == [if source == Some(SUSHI_AGGREGATOR) then SushiAggregator
                                  else if source == Some(ONEINCH) then OneInch
                                  else Lifi])
  {
    if checkedPaths.Some? {
      DistinctNames(checkedPaths.value);
    }
  }

  lemma NamesStand<T>(raw: seq<Raw<T>>)
    requires CheckedList(raw).Ok?
    ensures StandsFor(raw, CheckedList(raw).value) && NoRepeats(CheckedList(raw).value)
  {
    ScanAccepts(raw);
  }

  predicate StandsFor<T(==)>(raw: seq<Raw<T>>, names: seq<T>) {
    |names| == |raw| && forall i :: 0 <= i < |raw| ==> raw[i] == Named(names[i])
  }

  /** Where nothing is configured the pool's own source decides: Uniswap V3 and
      Curve stand for the direct-DEX family, LI.FI, the Sushi aggregator and 1inch
      for the calldata family, and any other source for none. A direct-DEX source of
      the pool is preferred to the configured default, which counts only if it is
      itself one. */
  lemma DefaultsFollowTheSource(source: Option<LiquiditySource>, take: TakePolicy)
    requires Resolve(source, take).Ok?
    ensures var p := Resolve(source, take).value;
            && (take.paths.None? ==> p.paths == match source
                  case Some(UNISWAPV3) => [DirectDex]
                  case Some(CURVE) => [DirectDex]
                  case Some(LIFI) => [CalldataAggregator]
                  case Some(SUSHI_AGGREGATOR) => [CalldataAggregator]
                  case Some(ONEINCH) => [CalldataAggregator]
                  case _ => [])
            && p.directDexDefault == (
                 if source == Some(UNISWAPV3) || source == Some(CURVE) then source
                 else if take.directDexDefault == Some(UNISWAPV3) || take.directDexDefault == Some(CURVE)
                 then take.directDexDefault
                 else None)
            && (take.allowedSources.None? ==>
                  p.directDexSources == if p.directDexDefault.Some? then [p.directDexDefault.value] else [])
            && p.mode == (if take.selectionMode == Some(DirectDexFirst) then DirectDexFirst else MaximizeProfit)
  {
  }

  /** A configured source list stands for its direct-DEX members. */
  lemma ConfiguredSourcesAreFiltered(source: Option<LiquiditySource>, take: TakePolicy, s: LiquiditySource)
    requires Resolve(source, take).Ok? && take.allowedSources.Some?
    ensures s in Resolve(source, take).value.directDexSources <==>
              s in take.allowedSources.value && (s == UNISWAPV3 || s == CURVE)
  {
    DistinctNames(take.allowedSources.value);
    FilteringKeepsOrder(Distinct(take.allowedSources.value));
  }

  /** The selector is on exactly when the families are configured by name, or at
      least two providers are; and the policy says which of the two it was. */
  lemma WhenTheSelectorIsOn(source: Option<LiquiditySource>, take: TakePolicy)
    requires Resolve(source, take).Ok?
    ensures var p := Resolve(source, take).value;
            && (p.selectorEnabled <==> take.paths.Some? || (take.providers.Some? && |take.providers.value| > 1))
            && (p.pathsConfigured <==> take.paths.Some?)
  {
    if take.providers.Some? {
      NamesStand(take.providers.value);
    }
  }

  /** Which error a rejected configuration gets: that of its families, else that of
      its providers, else that they lack their family. */
  lemma WhichErrorIsReported(source: Option<LiquiditySource>, take: TakePolicy)
    requires Resolve(source, take).Err?
    ensures match Resolve(source, take).error
            case BadPaths(e) => !GoodList(take.paths) && CheckedList(take.paths.value) == Err(e)
            case BadProviders(e) =>
              GoodList(take.paths) && !GoodList(take.providers) && CheckedList(take.providers.value) == Err(e)
            case ProvidersWithoutTheFamily =>
              GoodList(take.paths) && GoodList(take.providers) && take.providers.Some? && !FamilyAsked(source, take)
  {
    ListsAreChecked(take);
    if take.paths.Some? && CheckedList(take.paths.value).Ok? {
      DistinctNames(CheckedList(take.paths.value).value);
    }
  }

  /** The fallback applies exactly when it is switched on, both families are
      configured by name, the selection maximises profit, and of the cost and
      profit limits only the native gas cap is set. */
  lemma WhenTheFallbackApplies(source: Option<LiquiditySource>, take: TakePolicy)
    requires Resolve(source, take).Ok?
    ensures Resolve(source, take).value.fallback == Eligible <==>
      && take.fallbackMode == Some(FallbackDirectDexFirst)
      && (take.selectionMode.None? || take.selectionMode == Some(MaximizeProfit))
      && take.paths.Some? && Named(DirectDex) in take.paths.value && Named(CalldataAggregator) in take.paths.value
      && take.maxGasCostNative && !take.maxGasCostQuote && !take.minExpectedProfitQuote && !take.minProfitNative
  {
    ListsAreChecked(take);
    if take.paths.Some? {
      BothFamilies(source, Some(CheckedList(take.paths.value).value));
    } else {
      BothFamilies(source, None);
    }
  }

  /** Both families can only come from a configured list. */
  lemma BothFamilies(source: Option<LiquiditySource>, allowed: Option<seq<Path>>)
    ensures var paths := ResolvePaths(source, allowed);
            DirectDex in paths && CalldataAggregator in paths <==>
              allowed.Some? && DirectDex in allowed.value && CalldataAggregator in allowed.value
  {
    if allowed.Some? {
      DistinctNames(allowed.value);
    }
  }
}
