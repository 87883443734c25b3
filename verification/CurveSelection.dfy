/** Choosing the Curve pool for a token pair: candidates in priority order,
    coin probes that may revert or fail, and a cache of finished searches. */
module CurveSelection {
  import opened Wrappers
  import opened Text

  const MAX_PROBES: nat := 16
  const POSITIVE_TTL_MS: nat := 300000
  const NEGATIVE_TTL_MS: nat := 30000
  const MAX_CACHE_ENTRIES: nat := 512
  const NATIVE_ETH: string := "0xEeeeeEeeeEeEeeEeEeEeeEEEeeeeEeeeeeeeEEeE"

  datatype PoolType = Stable | Crypto | Unsupported

  datatype Pool = Pool(address: string, poolType: PoolType)

  datatype Selection = Selection(pool: Pool, tokenIn: nat, tokenOut: nat)

  /** What `coins(i)` answers: an address, a revert past the coin list, or a
      transport error that leaves the pool unknown. */
  datatype Coin = Coin(address: string) | Reverted | Unavailable

  /** The pools' coins as one search sees them. A pool is probed through the ABI
      of its type, so one address under two types may answer differently. */
  type Coins = (Pool, nat) -> Coin

  datatype Config = Config(
    pools: seq<(string, Pool)>, wethAddress: Option<string>, tokenAddresses: seq<(string, string)>)

  // -------------------------------------------------------------- one pool

  /** The address a token is looked up by: native ETH stands for wrapped ETH. */
  function LookupToken(token: string, wethAddress: Option<string>): string {
    if wethAddress.Some? && wethAddress.value != "" && Lower(token) == Lower(NATIVE_ETH)
    then Lower(wethAddress.value) else Lower(token)
  }

  /** The coin at this address is the token but for case. Where wrapped ETH is
      configured, it is the coin of native ETH. */
  predicate IsToken(address: string, token: string, wethAddress: Option<string>) {
    if Lower(token) == Lower(NATIVE_ETH) && wethAddress.Some? && wethAddress.value != ""
    then Lower(address) == Lower(wethAddress.value) else Lower(address) == Lower(token)
  }

  /** A token is looked up by the address of its own coin and of no other. */
  lemma TokensAreLookedUpAsThemselves(address: string, token: string, wethAddress: Option<string>)
    ensures Lower(address) == LookupToken(token, wethAddress) <==> IsToken(address, token, wethAddress)
  {
  }

  predicate IsCoin(coins: Coins, pool: Pool, i: nat, token: string) {
    coins(pool, i).Coin? && Lower(coins(pool, i).address) == token
  }

  datatype Probed = Indices(tokenIn: Option<nat>, tokenOut: Option<nat>) | ProbeUnavailable

  /** The probe loop from index i on; a later match overwrites an earlier one
      until both tokens have been seen. */
  function Scan(coins: Coins, pool: Pool, tokenIn: string, tokenOut: string,
                i: nat, a: Option<nat>, b: Option<nat>): Probed
    requires i <= MAX_PROBES
    decreases MAX_PROBES - i
  {
    if i == MAX_PROBES then Indices(a, b)
    else match coins(pool, i)
      case Reverted => Indices(a, b)
      case Unavailable => ProbeUnavailable
      case Coin(_) =>
        var a' := if IsCoin(coins, pool, i, tokenIn) then Some(i) else a;
        var b' := if IsCoin(coins, pool, i, tokenOut) then Some(i) else b;
        if a'.Some? && b'.Some? then Indices(a', b') else Scan(coins, pool, tokenIn, tokenOut, i + 1, a', b')
  }

  /** The first n probes all answered with a coin. */
  predicate Readable(coins: Coins, pool: Pool, n: nat) {
    forall i: nat :: i < n ==> coins(pool, i).Coin?
  }

  predicate Seen(coins: Coins, pool: Pool, token: string, n: nat) {
    exists i: nat :: i < n && IsCoin(coins, pool, i, token)
  }

  /** The last position of the token among the first n coins. */
  predicate LastAt(coins: Coins, pool: Pool, token: string, n: nat, at: Option<nat>) {
    if at.None? then !Seen(coins, pool, token, n)
    else at.value < n && IsCoin(coins, pool, at.value, token)
         && forall i: nat :: at.value < i < n ==> !IsCoin(coins, pool, i, token)
  }

  /** What the scan's answer says about the pool. Probing stops after n coins,
      at the earliest moment both tokens have been seen, at the end of the coin
      list, or at the probe limit; only a transport error before that moment
      leaves the pool unknown. */
  ghost predicate Explains(coins: Coins, pool: Pool, tokenIn: string, tokenOut: string, n: nat, r: Probed) {
    && n <= MAX_PROBES && Readable(coins, pool, n)
    && (forall k: nat :: k < n ==> !(Seen(coins, pool, tokenIn, k) && Seen(coins, pool, tokenOut, k)))
    && match r
       case ProbeUnavailable =>
         && n < MAX_PROBES && coins(pool, n).Unavailable?
         && !(Seen(coins, pool, tokenIn, n) && Seen(coins, pool, tokenOut, n))
       case Indices(a, b) =>
         && LastAt(coins, pool, tokenIn, n, a) && LastAt(coins, pool, tokenOut, n, b)
         && ((a.Some? && b.Some?) || n == MAX_PROBES || coins(pool, n).Reverted?)
  }

  lemma {:induction false} ScanExplains(coins: Coins, pool: Pool, tokenIn: string, tokenOut: string,
                                        i: nat, a: Option<nat>, b: Option<nat>) returns (n: nat)
    requires i <= MAX_PROBES && Readable(coins, pool, i) && !(a.Some? && b.Some?)
    requires LastAt(coins, pool, tokenIn, i, a) && LastAt(coins, pool, tokenOut, i, b)
    requires forall k: nat :: k < i ==> !(Seen(coins, pool, tokenIn, k) && Seen(coins, pool, tokenOut, k))
    ensures Explains(coins, pool, tokenIn, tokenOut, n, Scan(coins, pool, tokenIn, tokenOut, i, a, b))
    decreases MAX_PROBES - i
  {
    n := i;
    if i < MAX_PROBES && coins(pool, i).Coin? {
      var a' := if IsCoin(coins, pool, i, tokenIn) then Some(i) else a;
      var b' := if IsCoin(coins, pool, i, tokenOut) then Some(i) else b;
      if a'.Some? && b'.Some? {
        n := i + 1;
      } else {
        n := ScanExplains(coins, pool, tokenIn, tokenOut, i + 1, a', b');
      }
    }
  }

  method DiscoverTokenIndices(coins: Coins, pool: Pool, tokenIn: string, tokenOut: string) returns (r: Probed)
    ensures r == Scan(coins, pool, tokenIn, tokenOut, 0, None, None)
  {
    var a: Option<nat>, b: Option<nat> := None, None;
    var i := 0;
    while i < MAX_PROBES
      invariant i <= MAX_PROBES
      invariant Scan(coins, pool, tokenIn, tokenOut, 0, None, None) == Scan(coins, pool, tokenIn, tokenOut, i, a, b)
    {
      match coins(pool, i) {
        case Reverted => return Indices(a, b);
        case Unavailable => return ProbeUnavailable;
        case Coin(_) =>
      }
      if IsCoin(coins, pool, i, tokenIn) {
        a := Some(i);
      }
      if IsCoin(coins, pool, i, tokenOut) {
        b := Some(i);
      }
      if a.Some? && b.Some? {
        return Indices(a, b);
      }
      i := i + 1;
    }
    return Indices(a, b);
  }

  // ------------------------------------------------------------- candidates

  function SymbolOf(tokenAddresses: seq<(string, string)>, token: string): string {
    if tokenAddresses == [] then ""
    else if Lower(tokenAddresses[0].1) == Lower(token) then tokenAddresses[0].0
    else SymbolOf(tokenAddresses[1..], token)
  }

  /** Entry i is the first one with the token's address, whatever the case. */
  predicate FirstNamed(tokenAddresses: seq<(string, string)>, token: string, i: nat) {
    && i < |tokenAddresses| && Lower(tokenAddresses[i].1) == Lower(token)
    && forall j :: 0 <= j < i ==> Lower(tokenAddresses[j].1) != Lower(token)
  }

  /** The token's symbol in the configuration. */
  ghost predicate IsSymbol(tokenAddresses: seq<(string, string)>, token: string, symbol: string) {
    symbol != "" && exists i: nat :: FirstNamed(tokenAddresses, token, i) && tokenAddresses[i].0 == symbol
  }

  /** The symbol found is that of the first entry with the token's address; none is
      found when no entry has it, or when that symbol is empty. */
  lemma {:induction false} SymbolsAreTheTokensOwn(tokenAddresses: seq<(string, string)>, token: string)
    ensures var symbol := SymbolOf(tokenAddresses, token);
            || (exists i: nat :: FirstNamed(tokenAddresses, token, i) && tokenAddresses[i].0 == symbol)
            || (symbol == "" && forall i :: 0 <= i < |tokenAddresses| ==> Lower(tokenAddresses[i].1) != Lower(token))
  {
    if tokenAddresses != [] {
      var tail := tokenAddresses[1..];
      SymbolsAreTheTokensOwn(tail, token);
      if Lower(tokenAddresses[0].1) == Lower(token) {
        assert FirstNamed(tokenAddresses, token, 0);
      } else if i: nat :| FirstNamed(tail, token, i) && tail[i].0 == SymbolOf(tail, token) {
        assert FirstNamed(tokenAddresses, token, i + 1);
      }
    }
  }

  lemma SymbolsAreUnique(tokenAddresses: seq<(string, string)>, token: string, symbol: string)
    ensures IsSymbol(tokenAddresses, token, symbol) <==> symbol != "" && SymbolOf(tokenAddresses, token) == symbol
  {
    SymbolsAreTheTokensOwn(tokenAddresses, token);
    if i: nat, j: nat :| FirstNamed(tokenAddresses, token, i) && FirstNamed(tokenAddresses, token, j) {
      assert i <= j && j <= i;
    }
  }

  function PoolAt(pools: seq<(string, Pool)>, key: string): Option<Pool> {
    if pools == [] then None
    else if pools[0].0 == key then Some(pools[0].1)
    else PoolAt(pools[1..], key)
  }

  /** The pool the operator keyed for the pair, under either order of symbols. */
  function KeyedPool(config: Config, tokenA: string, tokenB: string): Option<Pool> {
    var a, b := SymbolOf(config.tokenAddresses, tokenA), SymbolOf(config.tokenAddresses, tokenB);
    if a == "" || b == "" then None
    else if PoolAt(config.pools, a + "-" + b).Some? then PoolAt(config.pools, a + "-" + b)
    else PoolAt(config.pools, b + "-" + a)
  }

  predicate HasKey(pools: seq<(string, Pool)>, key: string) {
    exists i :: 0 <= i < |pools| && pools[i].0 == key
  }

  /** The pool under the key; the first one, should the key occur twice. */
  predicate Keyed(pools: seq<(string, Pool)>, key: string, p: Pool) {
    exists i :: 0 <= i < |pools| && pools[i] == (key, p) && forall j :: 0 <= j < i ==> pools[j].0 != key
  }

  lemma {:induction false} PoolAtLooksUp(pools: seq<(string, Pool)>, key: string)
    ensures PoolAt(pools, key).Some? <==> HasKey(pools, key)
    ensures forall p :: PoolAt(pools, key) == Some(p) <==> Keyed(pools, key, p)
  {
    if pools != [] {
      var tail := pools[1..];
      PoolAtLooksUp(tail, key);
      assert pools == [pools[0]] + tail;
      if pools[0].0 == key {
        assert Keyed(pools, key, pools[0].1);
      } else {
        forall p ensures Keyed(pools, key, p) <==> Keyed(tail, key, p) {
          KeyedInTheTail(pools, key, p);
        }
      }
    }
  }

  lemma KeyedInTheTail(pools: seq<(string, Pool)>, key: string, p: Pool)
    requires pools != [] && pools[0].0 != key
    ensures Keyed(pools, key, p) <==> Keyed(pools[1..], key, p)
  {
    var tail := pools[1..];
    if i :| 0 <= i < |pools| && pools[i] == (key, p) && forall j :: 0 <= j < i ==> pools[j].0 != key {
      assert tail[i - 1] == (key, p);
    }
    if i :| 0 <= i < |tail| && tail[i] == (key, p) && forall j :: 0 <= j < i ==> tail[j].0 != key {
      assert pools[i + 1] == (key, p);
      assert forall j :: 0 < j < i + 1 ==> pools[j] == tail[j - 1];
    }
  }

  /** The operator keyed the pool for the pair: under the two symbols in the order of
      the lookup or, where that is not a key, in the other order. */
  ghost predicate KeyedFor(config: Config, tokenA: string, tokenB: string, p: Pool) {
    exists a, b :: IsSymbol(config.tokenAddresses, tokenA, a) && IsSymbol(config.tokenAddresses, tokenB, b)
      && Keyed(config.pools, if HasKey(config.pools, a + "-" + b) then a + "-" + b else b + "-" + a, p)
  }

  /** The keyed pool is the operator's, and is found whenever there is one. */
  lemma TheKeyedPoolIsTheOperators(config: Config, tokenA: string, tokenB: string, p: Pool)
    ensures KeyedPool(config, tokenA, tokenB) == Some(p) <==> KeyedFor(config, tokenA, tokenB, p)
  {
    var a, b := SymbolOf(config.tokenAddresses, tokenA), SymbolOf(config.tokenAddresses, tokenB);
    SymbolsAreUnique(config.tokenAddresses, tokenA, a);
    SymbolsAreUnique(config.tokenAddresses, tokenB, b);
    PoolAtLooksUp(config.pools, a + "-" + b);
    PoolAtLooksUp(config.pools, b + "-" + a);
    if x, y :| IsSymbol(config.tokenAddresses, tokenA, x) && IsSymbol(config.tokenAddresses, tokenB, y)
               && Keyed(config.pools, if HasKey(config.pools, x + "-" + y) then x + "-" + y else y + "-" + x, p) {
      SymbolsAreUnique(config.tokenAddresses, tokenA, x);
      SymbolsAreUnique(config.tokenAddresses, tokenB, y);
    }
  }

  predicate SamePool(p: Pool, q: Pool) {
    Lower(p.address) == Lower(q.address) && p.poolType == q.poolType
  }

  predicate Listed(pools: seq<Pool>, p: Pool) {
    exists i :: 0 <= i < |pools| && SamePool(pools[i], p)
  }

  /** The fallback scan appends every configured pool not listed yet. */
  function AddMissing(found: seq<Pool>, pools: seq<(string, Pool)>): seq<Pool>
    decreases pools
  {
    if pools == [] then found
    else AddMissing(if Listed(found, pools[0].1) then found else found + [pools[0].1], pools[1..])
  }

  function Candidates(config: Config, tokenA: string, tokenB: string, scan: bool): seq<Pool> {
    var keyed := KeyedPool(config, tokenA, tokenB);
    var prioritized := if keyed.Some? then [keyed.value] else [];
    if scan then AddMissing(prioritized, config.pools) else prioritized
  }

  /** The scan keeps what it starts with in front and repeats no pool. */
  lemma {:induction false} AddMissingExtends(found: seq<Pool>, pools: seq<(string, Pool)>)
    requires forall i, j :: 0 <= i < j < |found| ==> !SamePool(found[i], found[j])
    ensures found <= AddMissing(found, pools)
    ensures var r := AddMissing(found, pools);
            forall i, j :: 0 <= i < j < |r| ==> !SamePool(r[i], r[j])
    decreases pools
  {
    if pools != [] {
      AddMissingExtends(if Listed(found, pools[0].1) then found else found + [pools[0].1], pools[1..]);
    }
  }

  lemma ListedInLonger(found: seq<Pool>, longer: seq<Pool>, p: Pool)
    requires found <= longer && Listed(found, p)
    ensures Listed(longer, p)
  {
    var i :| 0 <= i < |found| && SamePool(found[i], p);
    assert SamePool(longer[i], p);
  }

  /** It lists every configured pool. */
  lemma {:induction false} AddMissingCovers(found: seq<Pool>, pools: seq<(string, Pool)>, k: nat)
    requires forall i, j :: 0 <= i < j < |found| ==> !SamePool(found[i], found[j])
    requires k < |pools|
    ensures Listed(AddMissing(found, pools), pools[k].1)
    decreases pools
  {
    var longer := if Listed(found, pools[0].1) then found else found + [pools[0].1];
    AddMissingExtends(longer, pools[1..]);
    if k > 0 {
      AddMissingCovers(longer, pools[1..], k - 1);
    } else {
      if !Listed(found, pools[0].1) {
        assert SamePool(longer[|found|], pools[0].1);
      }
      ListedInLonger(longer, AddMissing(found, pools), pools[0].1);
    }
  }

  /** And nothing else. */
  lemma {:induction false} AddMissingAddsConfigured(found: seq<Pool>, pools: seq<(string, Pool)>, p: Pool)
    requires p in AddMissing(found, pools)
    ensures p in found || exists i :: 0 <= i < |pools| && pools[i].1 == p
    decreases pools
  {
    if pools != [] {
      AddMissingAddsConfigured(if Listed(found, pools[0].1) then found else found + [pools[0].1], pools[1..], p);
      if exists i :: 0 <= i < |pools[1..]| && pools[1..][i].1 == p {
        var i :| 0 <= i < |pools[1..]| && pools[1..][i].1 == p;
        assert pools[i + 1].1 == p;
      } else if p !in found {
        assert pools[0].1 == p;
      }
    }
  }

  ghost predicate Configured(config: Config, p: Pool) {
    exists i :: 0 <= i < |config.pools| && config.pools[i].1 == p
  }

  /** What may be selected: the keyed pool, and with the fallback scan any other. */
  ghost predicate Eligible(config: Config, tokenA: string, tokenB: string, scan: bool, p: Pool) {
    KeyedFor(config, tokenA, tokenB, p) || (scan && Configured(config, p))
  }

  /** The pool is among them, be its address written in another case. */
  ghost predicate Contains(pools: seq<Pool>, p: Pool) {
    exists q :: q in pools && Lower(q.address) == Lower(p.address) && q.poolType == p.poolType
  }

  ghost predicate NoPoolTwice(pools: seq<Pool>) {
    forall i, j :: 0 <= i < j < |pools| ==> !Contains([pools[i]], pools[j])
  }

  /** The candidates are the eligible pools, each once, with the keyed one in front. */
  lemma CandidatesAreTheEligiblePools(config: Config, tokenA: string, tokenB: string, scan: bool)
    ensures var c := Candidates(config, tokenA, tokenB, scan);
            && (forall p :: p in c ==> Eligible(config, tokenA, tokenB, scan, p))
            && (forall p :: Eligible(config, tokenA, tokenB, scan, p) ==> Contains(c, p))
            && NoPoolTwice(c)
            && (forall p :: KeyedFor(config, tokenA, tokenB, p) ==> c != [] && c[0] == p)
  {
    var keyed := KeyedPool(config, tokenA, tokenB);
    var front := if keyed.Some? then [keyed.value] else [];
    var c := Candidates(config, tokenA, tokenB, scan);
    forall p ensures keyed == Some(p) <==> KeyedFor(config, tokenA, tokenB, p) {
      TheKeyedPoolIsTheOperators(config, tokenA, tokenB, p);
    }
    AddMissingExtends(front, config.pools);
    forall p | p in c ensures Eligible(config, tokenA, tokenB, scan, p) {
      AddMissingAddsConfigured(front, config.pools, p);
    }
    forall p | Eligible(config, tokenA, tokenB, scan, p)
      ensures Contains(c, p)
    {
      if keyed == Some(p) {
        assert c[0] in c;
      } else {
        var k :| 0 <= k < |config.pools| && config.pools[k].1 == p;
        AddMissingCovers(front, config.pools, k);
        var i :| 0 <= i < |c| && SamePool(c[i], p);
        assert c[i] in c;
      }
    }
    forall i, j | 0 <= i < j < |c| ensures !Contains([c[i]], c[j]) {
      assert !SamePool(c[i], c[j]);
    }
  }

  // ------------------------------------------------------------- the search

  datatype Verdict = Holds(selection: Selection) | Lacks | Malformed | Unknown

  /** One candidate. A pool type without an ABI throws before any probe. */
  function Judge(coins: Coins, pool: Pool, tokenIn: string, tokenOut: string): Verdict {
    if pool.poolType == Unsupported then Malformed
    else match Scan(coins, pool, tokenIn, tokenOut, 0, None, None)
      case ProbeUnavailable => Unknown
      case Indices(a, b) =>
        if a.None? || b.None? || a == b then Lacks else Holds(Selection(pool, a.value, b.value))
  }

  lemma {:induction false} ScanForOneToken(coins: Coins, pool: Pool, token: string, i: nat)
    requires i <= MAX_PROBES
    ensures var r := Scan(coins, pool, token, token, i, None, None);
            r.Indices? ==> r.tokenIn == r.tokenOut
    decreases MAX_PROBES - i
  {
    if i < MAX_PROBES && coins(pool, i).Coin? && !IsCoin(coins, pool, i, token) {
      ScanForOneToken(coins, pool, token, i + 1);
    }
  }

  datatype ProbeError = PoolProbeUnavailable(pool: Pool)

  function Search(
      coins: Coins, candidates: seq<Pool>, tokenIn: string, tokenOut: string): Result<Option<Selection>, ProbeError>
  {
    if candidates == [] then Ok(None)
    else match Judge(coins, candidates[0], tokenIn, tokenOut)
      case Holds(selection) => Ok(Some(selection))
      case Unknown => Err(PoolProbeUnavailable(candidates[0]))
      case _ => Search(coins, candidates[1..], tokenIn, tokenOut)
  }

  /** A transport error ended the probing of the pool. */
  ghost predicate BreaksOff(coins: Coins, pool: Pool) {
    exists n: nat :: n < MAX_PROBES && Readable(coins, pool, n) && coins(pool, n).Unavailable?
  }

  /** A pool is accepted for coins that hold the two tokens at two different
      positions, rejected when they do not, passed over when its type is not
      supported, and unknown only for a transport error. */
  lemma JudgedByItsCoins(coins: Coins, pool: Pool, tokenIn: string, tokenOut: string)
    ensures var v := Judge(coins, pool, tokenIn, tokenOut);
            v.Holds? ==>
              && v.selection.pool == pool && v.selection.tokenIn != v.selection.tokenOut
              && v.selection.tokenIn < MAX_PROBES && v.selection.tokenOut < MAX_PROBES
              && IsCoin(coins, pool, v.selection.tokenIn, tokenIn)
              && IsCoin(coins, pool, v.selection.tokenOut, tokenOut)
    ensures pool.poolType != Unsupported && Judge(coins, pool, tokenIn, tokenOut).Lacks? && tokenIn != tokenOut ==>
              exists n: nat :: n <= MAX_PROBES && Readable(coins, pool, n)
                && (n == MAX_PROBES || coins(pool, n).Reverted?)
                && !(Seen(coins, pool, tokenIn, n) && Seen(coins, pool, tokenOut, n))
    ensures Judge(coins, pool, tokenIn, tokenOut).Malformed? <==> pool.poolType == Unsupported
    ensures Judge(coins, pool, tokenIn, tokenOut).Unknown? ==> BreaksOff(coins, pool)
  {
    if pool.poolType != Unsupported {
      var n := ScanExplains(coins, pool, tokenIn, tokenOut, 0, None, None);
    }
  }

  predicate Passed(v: Verdict) { v.Lacks? || v.Malformed? }

  /** The search answers with the first candidate that holds the pair, and only
      if every earlier one is known not to; it fails on the first unknown pool
      met before that; and it answers "none" when all candidates are known not
      to hold the pair. */
  lemma {:induction false} SearchTakesTheFirst(coins: Coins, candidates: seq<Pool>, tokenIn: string, tokenOut: string)
    returns (k: nat)
    ensures k <= |candidates|
    ensures forall j: nat :: j < k ==> Passed(Judge(coins, candidates[j], tokenIn, tokenOut))
    ensures match Search(coins, candidates, tokenIn, tokenOut)
            case Ok(None) => k == |candidates|
            case Ok(Some(selection)) =>
              k < |candidates| && Judge(coins, candidates[k], tokenIn, tokenOut) == Holds(selection)
            case Err(e) => k < |candidates| && Judge(coins, candidates[k], tokenIn, tokenOut).Unknown?
                           && e == PoolProbeUnavailable(candidates[k])
  {
    k := 0;
    if candidates != [] && Passed(Judge(coins, candidates[0], tokenIn, tokenOut)) {
      k := SearchTakesTheFirst(coins, candidates[1..], tokenIn, tokenOut);
      k := k + 1;
    }
  }

  /** The pool's coin number i is the token. */
  predicate HoldsAt(config: Config, coins: Coins, pool: Pool, i: nat, token: string) {
    coins(pool, i).Coin? && IsToken(coins(pool, i).address, token, config.wethAddress)
  }

  ghost predicate HasToken(config: Config, coins: Coins, pool: Pool, n: nat, token: string) {
    exists i: nat :: i < n && HoldsAt(config, coins, pool, i, token)
  }

  /** The two tokens are one coin, as native and wrapped ETH are. */
  ghost predicate OneCoin(config: Config, tokenIn: string, tokenOut: string) {
    forall address: string ::
      IsToken(address, tokenIn, config.wethAddress) <==> IsToken(address, tokenOut, config.wethAddress)
  }

  /** The pool's coins have been read to their end, or to the probe limit, and lack
      one of the tokens. */
  ghost predicate LacksPair(config: Config, coins: Coins, pool: Pool, tokenIn: string, tokenOut: string) {
    exists n: nat :: n <= MAX_PROBES && Readable(coins, pool, n) && (n == MAX_PROBES || coins(pool, n).Reverted?)
      && !(HasToken(config, coins, pool, n, tokenIn) && HasToken(config, coins, pool, n, tokenOut))
  }

  /** The pool cannot serve the pair. */
  ghost predicate RuledOut(config: Config, coins: Coins, pool: Pool, tokenIn: string, tokenOut: string) {
    || pool.poolType == Unsupported || OneCoin(config, tokenIn, tokenOut)
    || LacksPair(config, coins, pool, tokenIn, tokenOut)
  }

  /** What an answer says about the configured pools and their coins. A selected
      pool is eligible and holds the pair at the two positions given, and the keyed
      pool, if it is another, cannot serve the pair. "No pool" means that no eligible
      pool can. An error names an eligible pool whose probing was cut off. */
  ghost predicate Right(
      config: Config, coins: Coins, tokenIn: string, tokenOut: string, scan: bool,
      r: Result<Option<Selection>, ProbeError>)
  {
    match r
    case Ok(Some(s)) =>
      && Eligible(config, tokenIn, tokenOut, scan, s.pool) && s.pool.poolType != Unsupported
      && s.tokenIn != s.tokenOut && s.tokenIn < MAX_PROBES && s.tokenOut < MAX_PROBES
      && HoldsAt(config, coins, s.pool, s.tokenIn, tokenIn) && HoldsAt(config, coins, s.pool, s.tokenOut, tokenOut)
      && (forall p :: KeyedFor(config, tokenIn, tokenOut, p) && p != s.pool ==>
            RuledOut(config, coins, p, tokenIn, tokenOut))
    case Ok(None) =>
      forall p :: Eligible(config, tokenIn, tokenOut, scan, p) ==>
        exists q :: Contains([q], p) && RuledOut(config, coins, q, tokenIn, tokenOut)
    case Err(e) =>
      Eligible(config, tokenIn, tokenOut, scan, e.pool) && BreaksOff(coins, e.pool)
  }

  lemma PassedPoolsAreRuledOut(config: Config, coins: Coins, pool: Pool, tokenIn: string, tokenOut: string)
    requires Passed(Judge(
               coins, pool, LookupToken(tokenIn, config.wethAddress), LookupToken(tokenOut, config.wethAddress)))
    ensures RuledOut(config, coins, pool, tokenIn, tokenOut)
  {
    var a, b := LookupToken(tokenIn, config.wethAddress), LookupToken(tokenOut, config.wethAddress);
    JudgedByItsCoins(coins, pool, a, b);
    if a == b {
      forall address: string
        ensures IsToken(address, tokenIn, config.wethAddress) <==> IsToken(address, tokenOut, config.wethAddress)
      {
        TokensAreLookedUpAsThemselves(address, tokenIn, config.wethAddress);
        TokensAreLookedUpAsThemselves(address, tokenOut, config.wethAddress);
      }
    } else if pool.poolType != Unsupported {
      var n: nat :| n <= MAX_PROBES && Readable(coins, pool, n) && (n == MAX_PROBES || coins(pool, n).Reverted?)
                    && !(Seen(coins, pool, a, n) && Seen(coins, pool, b, n));
      SeenIsHeld(config, coins, pool, n, tokenIn);
      SeenIsHeld(config, coins, pool, n, tokenOut);
    }
  }

  lemma SeenIsHeld(config: Config, coins: Coins, pool: Pool, n: nat, token: string)
    ensures Seen(coins, pool, LookupToken(token, config.wethAddress), n) <==> HasToken(config, coins, pool, n, token)
  {
    forall i: nat
      ensures IsCoin(coins, pool, i, LookupToken(token, config.wethAddress)) <==> HoldsAt(config, coins, pool, i, token)
    {
      CoinIsHeld(config, coins, pool, i, token);
    }
  }

  lemma CoinIsHeld(config: Config, coins: Coins, pool: Pool, i: nat, token: string)
    ensures IsCoin(coins, pool, i, LookupToken(token, config.wethAddress)) <==> HoldsAt(config, coins, pool, i, token)
  {
    if coins(pool, i).Coin? {
      TokensAreLookedUpAsThemselves(coins(pool, i).address, token, config.wethAddress);
    }
  }

  /** The search gives the right answer about the pools as configured and the coins
      as they were read. */
  lemma SearchIsRight(config: Config, coins: Coins, tokenIn: string, tokenOut: string, scan: bool)
    ensures Right(config, coins, tokenIn, tokenOut, scan,
                  Search(coins, Candidates(config, tokenIn, tokenOut, scan),
                         LookupToken(tokenIn, config.wethAddress), LookupToken(tokenOut, config.wethAddress)))
  {
    var a, b := LookupToken(tokenIn, config.wethAddress), LookupToken(tokenOut, config.wethAddress);
    var c := Candidates(config, tokenIn, tokenOut, scan);
    var k := SearchTakesTheFirst(coins, c, a, b);
    CandidatesAreTheEligiblePools(config, tokenIn, tokenOut, scan);
    forall j: nat | j < k ensures RuledOut(config, coins, c[j], tokenIn, tokenOut) {
      PassedPoolsAreRuledOut(config, coins, c[j], tokenIn, tokenOut);
    }
    if k == |c| {
      forall p | Eligible(config, tokenIn, tokenOut, scan, p)
        ensures exists q :: Contains([q], p) && RuledOut(config, coins, q, tokenIn, tokenOut)
      {
        var q :| q in c && Lower(q.address) == Lower(p.address) && q.poolType == p.poolType;
        assert q in [q];
        assert RuledOut(config, coins, q, tokenIn, tokenOut);
      }
    } else {
      JudgedByItsCoins(coins, c[k], a, b);
      assert c[k] in c;
      var v := Judge(coins, c[k], a, b);
      if v.Holds? {
        CoinIsHeld(config, coins, c[k], v.selection.tokenIn, tokenIn);
        CoinIsHeld(config, coins, c[k], v.selection.tokenOut, tokenOut);
      }
    }
  }

  // -------------------------------------------------------------- the cache

  /** The cache key: the mode and the two addresses in lower case. */
  datatype CacheId = CacheId(scan: bool, tokenIn: string, tokenOut: string)

  function IdOf(tokenIn: string, tokenOut: string, scan: bool): CacheId {
    CacheId(scan, Lower(tokenIn), Lower(tokenOut))
  }

  function CacheKey(id: CacheId): string {
    (if id.scan then "scan" else "keyed") + ":" + id.tokenIn + ":" + id.tokenOut
  }

  /** The program's string key tells two lookups apart exactly when they differ in
      mode or, but for case, in a token, as long as addresses hold no colon. */
  lemma CacheKeyIsInjective(
      tokenIn: string, tokenOut: string, scan: bool, tokenIn': string, tokenOut': string, scan': bool)
    requires NoColon(tokenIn) && NoColon(tokenIn')
    ensures var a, b := IdOf(tokenIn, tokenOut, scan), IdOf(tokenIn', tokenOut', scan');
            CacheKey(a) == CacheKey(b) <==> a == b
  {
    LowerKeepsNoColon(tokenIn);
    LowerKeepsNoColon(tokenIn');
    ColonFreeIdsHaveTheirOwnKey(IdOf(tokenIn, tokenOut, scan), IdOf(tokenIn', tokenOut', scan'));
  }

  lemma ColonFreeIdsHaveTheirOwnKey(a: CacheId, b: CacheId)
    requires NoColon(a.tokenIn) && NoColon(b.tokenIn)
    ensures CacheKey(a) == CacheKey(b) <==> a == b
  {
    if CacheKey(a) == CacheKey(b) {
      var m, n := if a.scan then "scan" else "keyed", if b.scan then "scan" else "keyed";
      assert CacheKey(a) == m + ":" + (a.tokenIn + ":" + a.tokenOut);
      assert CacheKey(b) == n + ":" + (b.tokenIn + ":" + b.tokenOut);
      FirstPartIsUnique(m, a.tokenIn + ":" + a.tokenOut, n, b.tokenIn + ":" + b.tokenOut);
      FirstPartIsUnique(a.tokenIn, a.tokenOut, b.tokenIn, b.tokenOut);
      assert m[0] == n[0];
    }
  }

  /** A finished search: the question, the coins it saw, its answer and when. */
  datatype Done = Done(
    tokenIn: string, tokenOut: string, scan: bool, coins: Coins, selection: Option<Selection>, at: nat)

  ghost predicate Genuine(config: Config, d: Done) {
    Right(config, d.coins, d.tokenIn, d.tokenOut, d.scan, Ok(d.selection))
  }

  function Ttl(selection: Option<Selection>): nat {
    if selection.Some? then POSITIVE_TTL_MS else NEGATIVE_TTL_MS
  }

  /** One entry of the insertion-ordered cache. */
  datatype Slot = Slot(id: CacheId, selection: Option<Selection>, expiresAt: nat)

  function Find(cache: seq<Slot>, id: CacheId): (k: nat)
    ensures k <= |cache| && (k < |cache| ==> cache[k].id == id)
    ensures forall i :: 0 <= i < k ==> cache[i].id != id
  {
    if cache == [] || cache[0].id == id then 0 else 1 + Find(cache[1..], id)
  }

  function Delete(cache: seq<Slot>, id: CacheId): seq<Slot> {
    var k := Find(cache, id);
    if k < |cache| then cache[..k] + cache[k + 1..] else cache
  }

  function Newest(cache: seq<Slot>, size: nat): seq<Slot> {
    if |cache| <= size then cache else cache[|cache| - size..]
  }

  ghost predicate DistinctIds(cache: seq<Slot>) {
    forall i, j :: 0 <= i < j < |cache| ==> cache[i].id != cache[j].id
  }

  /** The slot repeats the answer of a finished search of the same mode,
      direction and pair, and expires one TTL after it. */
  ghost predicate Backed(config: Config, searches: seq<Done>, slot: Slot) {
    exists d :: (d in searches && IdOf(d.tokenIn, d.tokenOut, d.scan) == slot.id
                 && d.selection == slot.selection && slot.expiresAt == d.at + Ttl(d.selection))
  }

  ghost predicate AllBacked(config: Config, searches: seq<Done>, cache: seq<Slot>) {
    forall slot :: slot in cache ==> Backed(config, searches, slot)
  }

  /** A finished search that answers the lookup: one that found a pool is good for
      five minutes, one that found none for half a minute. */
  ghost predicate Answered(searches: seq<Done>, id: CacheId, selection: Option<Selection>, now: nat) {
    exists d :: (d in searches && IdOf(d.tokenIn, d.tokenOut, d.scan) == id
                 && d.selection == selection && now < d.at + (if selection.Some? then 300000 else 30000))
  }

  /** Write last: the entry moves to the end, and the oldest are pruned. */
  function Remember(cache: seq<Slot>, slot: Slot): seq<Slot> {
    Newest(Delete(cache, slot.id) + [slot], MAX_CACHE_ENTRIES)
  }

  lemma DeleteDeletes(cache: seq<Slot>, id: CacheId)
    requires DistinctIds(cache)
    ensures DistinctIds(Delete(cache, id)) && |Delete(cache, id)| <= |cache|
    ensures forall slot :: slot in Delete(cache, id) <==> slot in cache && slot.id != id
  {
    var k := Find(cache, id);
    if k < |cache| {
      assert cache == cache[..k] + [cache[k]] + cache[k + 1..];
    }
  }

  /** A key has a live entry exactly when the one entry found for it is live. */
  lemma TheFoundSlotDecides(cache: seq<Slot>, id: CacheId, now: nat)
    requires DistinctIds(cache)
    ensures (forall slot :: slot in cache && slot.id == id ==> slot.expiresAt <= now)
      <==> Find(cache, id) == |cache| || cache[Find(cache, id)].expiresAt <= now
  {
    var k := Find(cache, id);
    if k < |cache| {
      assert cache[k] in cache;
      forall slot | slot in cache && slot.id == id ensures slot == cache[k] {
        var i :| 0 <= i < |cache| && cache[i] == slot;
      }
    } else {
      forall slot | slot in cache ensures slot.id != id {
        var i :| 0 <= i < |cache| && cache[i] == slot;
      }
    }
  }

  /** The newest entries survive, the one just written among them. */
  lemma RememberKeepsTheNewest(cache: seq<Slot>, slot: Slot)
    requires DistinctIds(cache)
    ensures var r := Remember(cache, slot);
            && DistinctIds(r) && 0 < |r| <= MAX_CACHE_ENTRIES && r[|r| - 1] == slot
            && (forall x :: x in r ==> x == slot || x in cache)
            && (|Delete(cache, slot.id)| < MAX_CACHE_ENTRIES ==> r == Delete(cache, slot.id) + [slot])
  {
    DeleteDeletes(cache, slot.id);
    var kept := Delete(cache, slot.id);
    forall i | 0 <= i < |kept| ensures kept[i].id != slot.id {
      assert kept[i] in kept;
    }
  }

  lemma BackedForLonger(config: Config, searches: seq<Done>, d: Done, cache: seq<Slot>, cache': seq<Slot>, slot: Slot)
    requires AllBacked(config, searches, cache)
    requires forall x :: x in cache' ==> x == slot || x in cache
    requires slot == Slot(IdOf(d.tokenIn, d.tokenOut, d.scan), d.selection, d.at + Ttl(d.selection))
    ensures AllBacked(config, searches + [d], cache')
  {
    assert d in searches + [d];
    forall x | x in cache' ensures Backed(config, searches + [d], x) {
      if x != slot {
        var e :| e in searches && IdOf(e.tokenIn, e.tokenOut, e.scan) == x.id
                 && e.selection == x.selection && x.expiresAt == e.at + Ttl(e.selection);
        assert e in searches + [d];
      }
    }
  }

  /** Deletes the oldest entries until at most `size` are left. */
  method PruneToMaxSize(cache: seq<Slot>, size: nat) returns (r: seq<Slot>)
    ensures r == Newest(cache, size)
  {
    r := cache;
    while |r| > size
      invariant |r| <= |cache| && r == cache[|cache| - |r|..]
      invariant |r| >= size || r == cache
    {
      r := r[1..];
    }
  }

  class CurvePoolSelector {
    const config: Config
    var cache: seq<Slot>
    ghost var searches: seq<Done>

    ghost predicate Valid()
      reads this
    {
      && DistinctIds(cache) && |cache| <= MAX_CACHE_ENTRIES
      && (forall d :: d in searches ==> Genuine(config, d))
      && AllBacked(config, searches, cache)
    }

    constructor (config: Config)
      ensures Valid() && this.config == config && cache == [] && searches == []
    {
      this.config := config;
      cache, searches := [], [];
    }

    /** A hit is the answer of a finished search younger than its TTL; an expired
        entry is dropped. */
    method Lookup(id: CacheId, now: nat) returns (hit: Option<Option<Selection>>)
      requires Valid()
      modifies this`cache
      ensures Valid()
      ensures hit.Some? ==> cache == old(cache) && Answered(searches, id, hit.value, now)
      ensures var k := Find(old(cache), id);
              hit == if k < |old(cache)| && now < old(cache)[k].expiresAt then Some(old(cache)[k].selection) else None
      ensures hit.None? ==> cache == Delete(old(cache), id)
      ensures hit.None? <==> forall slot :: slot in old(cache) && slot.id == id ==> slot.expiresAt <= now
    {
      var k := Find(cache, id);
      TheFoundSlotDecides(cache, id, now);
      if k == |cache| {
        return None;
      }
      assert cache[k] in cache;
      if cache[k].expiresAt <= now {
        DeleteDeletes(cache, id);
        cache := Delete(cache, id);
        return None;
      }
      assert Backed(config, searches, cache[k]);
      return Some(cache[k].selection);
    }

    method Store(
        tokenIn: string, tokenOut: string, scan: bool, selection: Option<Selection>, now: nat, ghost coins: Coins)
      requires Valid() && Genuine(config, Done(tokenIn, tokenOut, scan, coins, selection, now))
      modifies this
      ensures Valid()
      ensures searches == old(searches) + [Done(tokenIn, tokenOut, scan, coins, selection, now)]
      ensures var expiresAt := now + if selection.Some? then 300000 else 30000;
              cache == Remember(old(cache), Slot(IdOf(tokenIn, tokenOut, scan), selection, expiresAt))
    {
      var slot := Slot(IdOf(tokenIn, tokenOut, scan), selection, now + Ttl(selection));
      ghost var d := Done(tokenIn, tokenOut, scan, coins, selection, now);
      RememberKeepsTheNewest(cache, slot);
      BackedForLonger(config, searches, d, cache, Remember(cache, slot), slot);
      var written := Delete(cache, slot.id) + [slot];
      cache := PruneToMaxSize(written, MAX_CACHE_ENTRIES);
      searches := searches + [d];
    }

    method FindPoolForTokenPair(tokenIn: string, tokenOut: string, scan: bool, coins: Coins)
      returns (r: Result<Option<Selection>, ProbeError>)
      ensures r == Search(coins, Candidates(config, tokenIn, tokenOut, scan),
                          LookupToken(tokenIn, config.wethAddress), LookupToken(tokenOut, config.wethAddress))
      ensures Right(config, coins, tokenIn, tokenOut, scan, r)
    {
      SearchIsRight(config, coins, tokenIn, tokenOut, scan);
      var candidates := Candidates(config, tokenIn, tokenOut, scan);
      var a, b := LookupToken(tokenIn, config.wethAddress), LookupToken(tokenOut, config.wethAddress);
      for i := 0 to |candidates|
        invariant Search(coins, candidates, a, b) == Search(coins, candidates[i..], a, b)
      {
        var pool := candidates[i];
        assert candidates[i..][1..] == candidates[i + 1..];
        if pool.poolType != Unsupported {
          var probed := DiscoverTokenIndices(coins, pool, a, b);
          if probed.ProbeUnavailable? {
            return Err(PoolProbeUnavailable(pool));
          }
          if probed.tokenIn.Some? && probed.tokenOut.Some? && probed.tokenIn != probed.tokenOut {
            return Ok(Some(Selection(pool, probed.tokenIn.value, probed.tokenOut.value)));
          }
        }
      }
      return Ok(None);
    }

    /** A miss: searched among this moment's coins, and remembered unless the search
        failed. */
    method SearchAndRemember(tokenIn: string, tokenOut: string, scan: bool, finished: nat, coins: Coins)
      returns (r: Result<Option<Selection>, ProbeError>)
      requires Valid()
      modifies this
      ensures r.Ok? ==>
                forall now: nat :: now <= finished ==> Answered(searches, IdOf(tokenIn, tokenOut, scan), r.value, now)
      ensures Valid() && Right(config, coins, tokenIn, tokenOut, scan, r)
      ensures r == Search(coins, Candidates(config, tokenIn, tokenOut, scan),
                          LookupToken(tokenIn, config.wethAddress), LookupToken(tokenOut, config.wethAddress))
      ensures r.Err? ==> cache == old(cache) && searches == old(searches)
      ensures r.Ok? ==>
                && cache == Remember(old(cache), Slot(IdOf(tokenIn, tokenOut, scan), r.value, finished + Ttl(r.value)))
                && searches == old(searches) + [Done(tokenIn, tokenOut, scan, coins, r.value, finished)]
    {
      r := FindPoolForTokenPair(tokenIn, tokenOut, scan, coins);
      if r.Ok? {
        Store(tokenIn, tokenOut, scan, r.value, finished, coins);
        assert Done(tokenIn, tokenOut, scan, coins, r.value, finished) in searches;
      }
    }

    /** A lookup from end to end: answered by a live entry if there is one, and
        then nothing changes; otherwise searched and remembered. Lookup and Store
        keep Valid() on their own, so other lookups may come between them. */
    method ResolvePoolSelection(tokenIn: string, tokenOut: string, scan: bool, now: nat, finished: nat, coins: Coins)
      returns (r: Result<Option<Selection>, ProbeError>)
      requires Valid() && now <= finished
      modifies this
      ensures Valid()
      ensures r.Ok? ==> Answered(searches, IdOf(tokenIn, tokenOut, scan), r.value, now)
      ensures var id := IdOf(tokenIn, tokenOut, scan);
              if Find(old(cache), id) < |old(cache)| && now < old(cache)[Find(old(cache), id)].expiresAt
              then
                && r == Ok(old(cache)[Find(old(cache), id)].selection)
                && cache == old(cache) && searches == old(searches)
              else
                && Right(config, coins, tokenIn, tokenOut, scan, r)
                && r == Search(coins, Candidates(config, tokenIn, tokenOut, scan),
                               LookupToken(tokenIn, config.wethAddress), LookupToken(tokenOut, config.wethAddress))
                && (r.Err? ==> cache == Delete(old(cache), id) && searches == old(searches))
                && (r.Ok? ==>
                      && cache == Remember(Delete(old(cache), id), Slot(id, r.value, finished + Ttl(r.value)))
                      && searches == old(searches) + [Done(tokenIn, tokenOut, scan, coins, r.value, finished)])
    {
      var hit := Lookup(IdOf(tokenIn, tokenOut, scan), now);
      if hit.Some? {
        return Ok(hit.value);
      }
      r := SearchAndRemember(tokenIn, tokenOut, scan, finished, coins);
    }
  }

  /** Keyed lookups see addresses only through their lower case. */
  lemma {:induction false} SymbolIgnoresCase(tokenAddresses: seq<(string, string)>, token: string, token': string)
    requires Lower(token) == Lower(token')
    ensures SymbolOf(tokenAddresses, token) == SymbolOf(tokenAddresses, token')
  {
    if tokenAddresses != [] {
      SymbolIgnoresCase(tokenAddresses[1..], token, token');
    }
  }

  /** Fail closed: whatever a keyed lookup answers, from the cache or from a
      search, is a pool the operator keyed for that very pair. */
  lemma KeyedLookupsStayKeyed(config: Config, d: Done, tokenIn: string, tokenOut: string)
    requires Genuine(config, d) && IdOf(d.tokenIn, d.tokenOut, d.scan) == IdOf(tokenIn, tokenOut, false)
    requires d.selection.Some?
    ensures KeyedFor(config, tokenIn, tokenOut, d.selection.value.pool)
  {
    var p := d.selection.value.pool;
    TheKeyedPoolIsTheOperators(config, d.tokenIn, d.tokenOut, p);
    TheKeyedPoolIsTheOperators(config, tokenIn, tokenOut, p);
    SymbolIgnoresCase(config.tokenAddresses, d.tokenIn, tokenIn);
    SymbolIgnoresCase(config.tokenAddresses, d.tokenOut, tokenOut);
  }

  /** Native ETH is looked up as wrapped ETH, so that no pool is ever selected
      for swapping the one into the other. */
  lemma {:induction false} EthAndWrappedEthAreOneCoin(coins: Coins, candidates: seq<Pool>, eth: string, weth: string)
    requires weth != "" && Lower(eth) == Lower(NATIVE_ETH)
    ensures LookupToken(eth, Some(weth)) == Lower(weth) == LookupToken(weth, Some(weth))
    ensures var r := Search(coins, candidates, LookupToken(eth, Some(weth)), LookupToken(weth, Some(weth)));
            r.Ok? ==> r.value.None?
  {
    if candidates != [] {
      ScanForOneToken(coins, candidates[0], Lower(weth), 0);
      EthAndWrappedEthAreOneCoin(coins, candidates[1..], eth, weth);
    }
  }
}
