/**
 * The position aggregator of the liquidity "Pool" page: from the connected
 * account, the tracked token pairs, their liquidity-token balances and the
 * reserves fetched for the pairs with a balance, it derives the list of
 * positions to show and the single view state the page renders.
 *
 * Every derivation is a pure expression in the page (`.map`, `.filter`,
 * `.some` and a chain of ternaries), so each one is a function here. The
 * collaborators whose code is not part of this model are inputs:
 * `toV2LiquidityToken` is the arrow `lpToken`, the balance fetcher's answer is
 * `balances` with its flag `fetchingBalances`, and the reserve fetcher's
 * answer is `reserves`.
 */
module Pool {
  import opened Wrappers

  type Address = string

  /** A token, identified by the address of its contract. */
  datatype Token = Token(address: Address)

  /** A tracked pair of tokens, `[Token, Token]`. */
  datatype TokenPair = TokenPair(token0: Token, token1: Token)

  /** A pool as the reserve fetcher builds it; the page only hands it on. */
  datatype Pair = Pair(liquidityToken: Token, tokens: TokenPair)

  /** The state the reserve fetcher reports beside each pool. */
  datatype PairState = PairLoading | PairNotExists | PairExists | PairInvalid

  /** One entry of the reserve fetcher's answer: `[state, pair]`, where the
      pair is `null` unless the pool was found. */
  type ReserveEntry = (PairState, Option<Pair>)

  /** `{ liquidityToken, tokens }`: a tracked pair beside its liquidity token. */
  datatype PairWithLiquidityToken = PairWithLiquidityToken(liquidityToken: Token, tokens: TokenPair)

  /** What the page renders: exactly one of four layouts. */
  datatype ViewState = Disconnected | Loading | HasPositions(positions: seq<Pair>) | Empty

  /** Everything the page derives in one evaluation. */
  datatype PageState = PageState(
    liquidityTokens: seq<Token>,       // asked of the balance fetcher
    requested: seq<TokenPair>,         // asked of the reserve fetcher
    loading: bool,
    positions: seq<Pair>,
    view: ViewState)

  /** `ys` keeps all elements of `xs`, in their order, possibly with others
      in between. */
  predicate IsSubsequence<T(==)>(xs: seq<T>, ys: seq<T>)
    decreases |ys|
  {
    if xs == [] then true
    else if ys == [] then false
    else (xs[0] == ys[0] && IsSubsequence(xs[1..], ys[1..])) || IsSubsequence(xs, ys[1..])
  }

  // ---------------------------------------------------------------------------
  // Liquidity tokens of the tracked pairs

  /** `trackedTokenPairs.map(tokens => ({ liquidityToken: toV2LiquidityToken(tokens), tokens }))` */
  function WithLiquidityTokens(tracked: seq<TokenPair>, lpToken: TokenPair -> Token): (r: seq<PairWithLiquidityToken>)
    ensures |r| == |tracked|
    ensures forall i :: 0 <= i < |r| ==> r[i].tokens == tracked[i] && r[i].liquidityToken == lpToken(tracked[i])
  {
    if tracked == [] then []
    else [PairWithLiquidityToken(lpToken(tracked[0]), tracked[0])] + WithLiquidityTokens(tracked[1..], lpToken)
  }

  /** `tokenPairsWithLiquidityTokens.map(tpwlt => tpwlt.liquidityToken)` */
  function LiquidityTokens(pairs: seq<PairWithLiquidityToken>): (r: seq<Token>)
    ensures |r| == |pairs|
    ensures forall i :: 0 <= i < |r| ==> r[i] == pairs[i].liquidityToken
  {
    if pairs == [] then [] else [pairs[0].liquidityToken] + LiquidityTokens(pairs[1..])
  }

  /** The tokens whose balances the page asks for are those of the tracked
      pairs, one per pair, in the same order. */
  lemma LiquidityTokensOfTracked(tracked: seq<TokenPair>, lpToken: TokenPair -> Token)
    ensures |LiquidityTokens(WithLiquidityTokens(tracked, lpToken))| == |tracked|
    ensures forall i :: 0 <= i < |tracked| ==>
      LiquidityTokens(WithLiquidityTokens(tracked, lpToken))[i] == lpToken(tracked[i])
  {
  }

  // ---------------------------------------------------------------------------
  // Candidates: the pairs in which the account holds liquidity

  /** `v2PairsBalances[liquidityToken.address]?.greaterThan('0')` used as a
      condition. A missing key reads as `undefined`, which makes the whole
      chain `undefined`, and `undefined` is falsy. */
  predicate HasPositiveBalance(balances: map<Address, int>, p: PairWithLiquidityToken)
  {
    p.liquidityToken.address in balances && balances[p.liquidityToken.address] > 0
  }

  /** `tokenPairsWithLiquidityTokens.filter(...)`: the candidates. */
  function WithBalances(pairs: seq<PairWithLiquidityToken>, balances: map<Address, int>): (r: seq<PairWithLiquidityToken>)
    ensures |r| <= |pairs|
    ensures forall i :: 0 <= i < |r| ==> r[i] in pairs && HasPositiveBalance(balances, r[i])
  {
    if pairs == [] then []
    else if HasPositiveBalance(balances, pairs[0]) then [pairs[0]] + WithBalances(pairs[1..], balances)
    else WithBalances(pairs[1..], balances)
  }

  /** A pair is a candidate exactly when the balance map has an entry for the
      address of its liquidity token and that amount is above zero; a missing
      or non-positive balance excludes it. */
  lemma {:induction false} WithBalancesMember(pairs: seq<PairWithLiquidityToken>, balances: map<Address, int>, x: PairWithLiquidityToken)
    ensures x in WithBalances(pairs, balances) <==>
      x in pairs && x.liquidityToken.address in balances && balances[x.liquidityToken.address] > 0
  {
    if pairs != [] {
      WithBalancesMember(pairs[1..], balances, x);
      assert pairs == [pairs[0]] + pairs[1..];
    }
  }

  /** Filtering keeps the input order: the candidates are a subsequence of
      the tracked pairs. */
  lemma {:induction false} WithBalancesIsSubsequence(pairs: seq<PairWithLiquidityToken>, balances: map<Address, int>)
    ensures IsSubsequence(WithBalances(pairs, balances), pairs)
  {
    if pairs != [] {
      WithBalancesIsSubsequence(pairs[1..], balances);
      var r := WithBalances(pairs, balances);
      if HasPositiveBalance(balances, pairs[0]) {
        assert r[0] == pairs[0] && r[1..] == WithBalances(pairs[1..], balances);
      }
    }
  }

  /** Filtering a concatenation filters each part: earlier tracked pairs
      stay before later ones. */
  lemma {:induction false} WithBalancesAppend(a: seq<PairWithLiquidityToken>, b: seq<PairWithLiquidityToken>, balances: map<Address, int>)
    ensures WithBalances(a + b, balances) == WithBalances(a, balances) + WithBalances(b, balances)
  {
    if a != [] {
      assert (a + b)[1..] == a[1..] + b;
      WithBalancesAppend(a[1..], b, balances);
      assert (a + b)[0] == a[0];
    } else {
      assert a + b == b;
    }
  }

  /** Duplicates are not removed: every copy of a pair passes or fails
      together, since the copies share one balance entry. */
  lemma {:induction false} WithBalancesMultiplicity(pairs: seq<PairWithLiquidityToken>, balances: map<Address, int>, x: PairWithLiquidityToken)
    ensures multiset(WithBalances(pairs, balances))[x] ==
      if x.liquidityToken.address in balances && balances[x.liquidityToken.address] > 0
      then multiset(pairs)[x] else 0
  {
    if pairs != [] {
      WithBalancesMultiplicity(pairs[1..], balances, x);
      assert pairs == [pairs[0]] + pairs[1..];
    }
  }

  /** Two entries whose liquidity tokens have one address (two copies of a
      pair, or one pair listed in both token orders) are both candidates or
      neither is. */
  lemma SharedAddressSameFate(pairs: seq<PairWithLiquidityToken>, balances: map<Address, int>, i: nat, j: nat)
    requires i < |pairs| && j < |pairs|
    requires pairs[i].liquidityToken.address == pairs[j].liquidityToken.address
    ensures pairs[i] in WithBalances(pairs, balances) <==> pairs[j] in WithBalances(pairs, balances)
  {
    WithBalancesMember(pairs, balances, pairs[i]);
    WithBalancesMember(pairs, balances, pairs[j]);
  }

  /** The candidates derived from the tracked pairs. */
  function Candidates(tracked: seq<TokenPair>, lpToken: TokenPair -> Token, balances: map<Address, int>): seq<PairWithLiquidityToken>
  {
    WithBalances(WithLiquidityTokens(tracked, lpToken), balances)
  }

  /** A tracked pair becomes a candidate exactly when the balance of its
      liquidity token is present and positive. */
  lemma TrackedPairIsCandidate(tracked: seq<TokenPair>, lpToken: TokenPair -> Token, balances: map<Address, int>, t: TokenPair)
    ensures PairWithLiquidityToken(lpToken(t), t) in Candidates(tracked, lpToken, balances) <==>
      t in tracked && lpToken(t).address in balances && balances[lpToken(t).address] > 0
  {
    var withTokens := WithLiquidityTokens(tracked, lpToken);
    WithBalancesMember(withTokens, balances, PairWithLiquidityToken(lpToken(t), t));
    if t in tracked {
      var i :| 0 <= i < |tracked| && tracked[i] == t;
      assert withTokens[i] == PairWithLiquidityToken(lpToken(t), t);
    }
  }

  /** `liquidityTokensWithBalances.map(({ tokens }) => tokens)`: the pairs
      whose reserves the page asks for. */
  function RequestedPairs(candidates: seq<PairWithLiquidityToken>): (r: seq<TokenPair>)
    ensures |r| == |candidates|
    ensures forall i :: 0 <= i < |r| ==> r[i] == candidates[i].tokens
  {
    if candidates == [] then [] else [candidates[0].tokens] + RequestedPairs(candidates[1..])
  }

  /** Reserves are asked for a subsequence of the tracked pairs: only pairs
      with a positive balance, in the tracked order. */
  lemma {:induction false} RequestedPairsAreOrderedSubset(tracked: seq<TokenPair>, lpToken: TokenPair -> Token, balances: map<Address, int>)
    ensures IsSubsequence(RequestedPairs(Candidates(tracked, lpToken, balances)), tracked)
  {
    if tracked != [] {
      RequestedPairsAreOrderedSubset(tracked[1..], lpToken, balances);
      var withTokens := WithLiquidityTokens(tracked, lpToken);
      assert withTokens[1..] == WithLiquidityTokens(tracked[1..], lpToken);
      var rest := RequestedPairs(Candidates(tracked[1..], lpToken, balances));
      var r := RequestedPairs(Candidates(tracked, lpToken, balances));
      if HasPositiveBalance(balances, withTokens[0]) {
        assert Candidates(tracked, lpToken, balances) == [withTokens[0]] + Candidates(tracked[1..], lpToken, balances);
        assert r == [tracked[0]] + rest;
      } else {
        assert r == rest;
      }
    }
  }

  // ---------------------------------------------------------------------------
  // Loading

  /** JavaScript truthiness of one entry of the reserve answer. The entry is
      the `[state, pair]` array itself, and an array is always truthy, whatever
      the pair inside it holds. */
  predicate IsTruthy(entry: ReserveEntry)
  {
    true
  }

  /** `v2Pairs.some((V2Pair) => !V2Pair)` */
  predicate SomeFalsy(reserves: seq<ReserveEntry>)
  {
    if reserves == [] then false else !IsTruthy(reserves[0]) || SomeFalsy(reserves[1..])
  }

  /** `fetchingV2PairBalances || v2Pairs.length < liquidityTokensWithBalances.length
      || v2Pairs.some((V2Pair) => !V2Pair)` */
  predicate IsLoading(fetchingBalances: bool, reserves: seq<ReserveEntry>, candidates: seq<PairWithLiquidityToken>)
  {
    fetchingBalances || |reserves| < |candidates| || SomeFalsy(reserves)
  }

  /** The third disjunct tests the entry, never the pair inside it, so it
      never holds. */
  lemma {:induction false} NoEntryIsFalsy(reserves: seq<ReserveEntry>)
    ensures !SomeFalsy(reserves)
  {
    if reserves != [] {
      NoEntryIsFalsy(reserves[1..]);
    }
  }

  /** Loading is exactly "balances are being fetched, or fewer reserve
      entries than candidates". */
  lemma LoadingAsWritten(fetchingBalances: bool, reserves: seq<ReserveEntry>, candidates: seq<PairWithLiquidityToken>)
    ensures IsLoading(fetchingBalances, reserves, candidates) <==> fetchingBalances || |reserves| < |candidates|
  {
    NoEntryIsFalsy(reserves);
  }

  /** What the reserve entries hold does not matter to loading, only how
      many there are: a `null` pair does not keep the page loading. */
  lemma LoadingIgnoresEntries(fetchingBalances: bool, r1: seq<ReserveEntry>, r2: seq<ReserveEntry>, candidates: seq<PairWithLiquidityToken>)
    requires |r1| == |r2|
    ensures IsLoading(fetchingBalances, r1, candidates) == IsLoading(fetchingBalances, r2, candidates)
  {
    LoadingAsWritten(fetchingBalances, r1, candidates);
    LoadingAsWritten(fetchingBalances, r2, candidates);
  }

  /** Some reserve entry holds a `null` pair: the pool has not been found,
      for instance because its reserves are still being fetched. */
  predicate SomeNullPair(reserves: seq<ReserveEntry>)
  {
    exists i :: 0 <= i < |reserves| && reserves[i].1.None?
  }

  /** A `null` pair in the reserve answer does not make the page load: once
      balances are in and no entry is missing, loading is false even though
      some pair is still `null`. */
  lemma NullPairDoesNotLoad(reserves: seq<ReserveEntry>, candidates: seq<PairWithLiquidityToken>)
    requires SomeNullPair(reserves)
    requires |reserves| >= |candidates|
    ensures !IsLoading(false, reserves, candidates)
  {
    LoadingAsWritten(false, reserves, candidates);
  }

  /** The smallest such case: one candidate whose reserves are still loading,
      `[[LOADING, null]]`, has a `null` pair and yet does not load. */
  lemma PendingEntryDoesNotLoad(c: PairWithLiquidityToken)
    ensures SomeNullPair([(PairLoading, None)])
    ensures !IsLoading(false, [(PairLoading, None)], [c])
  {
    var reserves: seq<ReserveEntry> := [(PairLoading, None)];
    assert reserves[0].1.None?;
    NullPairDoesNotLoad(reserves, [c]);
  }

  // ---------------------------------------------------------------------------
  // Positions

  /** `v2Pairs.map(([, pair]) => pair)` */
  function SecondComponents(reserves: seq<ReserveEntry>): (r: seq<Option<Pair>>)
    ensures |r| == |reserves|
    ensures forall i :: 0 <= i < |r| ==> r[i] == reserves[i].1
  {
    if reserves == [] then [] else [reserves[0].1] + SecondComponents(reserves[1..])
  }

  /** `.filter((v2Pair): v2Pair is Pair => Boolean(v2Pair))`: the pairs that
      are not `null`. */
  function PresentPairs(pairs: seq<Option<Pair>>): (r: seq<Pair>)
    ensures |r| <= |pairs|
    ensures forall i :: 0 <= i < |r| ==> Some(r[i]) in pairs
  {
    if pairs == [] then []
    else match pairs[0]
      case Some(p) => [p] + PresentPairs(pairs[1..])
      case None => PresentPairs(pairs[1..])
  }

  /** `allV2PairsWithLiquidity` */
  function Positions(reserves: seq<ReserveEntry>): seq<Pair>
  {
    PresentPairs(SecondComponents(reserves))
  }

  /** A pool is a position exactly when some reserve entry holds it. */
  lemma {:induction false} PositionsMember(reserves: seq<ReserveEntry>, p: Pair)
    ensures p in Positions(reserves) <==> exists i :: 0 <= i < |reserves| && reserves[i].1 == Some(p)
  {
    if reserves != [] {
      PositionsMember(reserves[1..], p);
      assert SecondComponents(reserves)[1..] == SecondComponents(reserves[1..]);
      if exists i :: 0 <= i < |reserves[1..]| && reserves[1..][i].1 == Some(p) {
        var i :| 0 <= i < |reserves[1..]| && reserves[1..][i].1 == Some(p);
        assert reserves[i + 1].1 == Some(p);
      }
      if exists i :: 0 <= i < |reserves| && reserves[i].1 == Some(p) {
        var i :| 0 <= i < |reserves| && reserves[i].1 == Some(p);
        if i > 0 {
          assert reserves[1..][i - 1].1 == Some(p);
        }
      }
    }
  }

  /** Positions keep the order of the reserve entries. */
  lemma {:induction false} PositionsAppend(a: seq<ReserveEntry>, b: seq<ReserveEntry>)
    ensures Positions(a + b) == Positions(a) + Positions(b)
  {
    if a != [] {
      assert (a + b)[1..] == a[1..] + b;
      assert SecondComponents(a + b)[1..] == SecondComponents(a[1..] + b);
      assert SecondComponents(a)[1..] == SecondComponents(a[1..]);
      PositionsAppend(a[1..], b);
      assert (a + b)[0] == a[0];
    } else {
      assert a + b == b;
    }
  }

  /** There are never more positions than reserve entries, and as many
      exactly when no entry holds `null`. */
  lemma {:induction false} PositionsCount(reserves: seq<ReserveEntry>)
    ensures |Positions(reserves)| <= |reserves|
    ensures |Positions(reserves)| == |reserves| <==> forall i :: 0 <= i < |reserves| ==> reserves[i].1.Some?
  {
    if reserves != [] {
      PositionsCount(reserves[1..]);
      assert SecondComponents(reserves)[1..] == SecondComponents(reserves[1..]);
      if forall i :: 0 <= i < |reserves| ==> reserves[i].1.Some? {
        assert forall i :: 0 <= i < |reserves[1..]| ==> reserves[1..][i].1.Some?;
      } else if reserves[0].1.Some? {
        var i :| 0 <= i < |reserves| && reserves[i].1.None?;
        assert reserves[1..][i - 1].1.None?;
      }
    }
  }

  /** With no pool found in any entry there is no position. */
  lemma {:induction false} NoPoolNoPositions(reserves: seq<ReserveEntry>)
    requires forall i :: 0 <= i < |reserves| ==> reserves[i].1 == None
    ensures Positions(reserves) == []
  {
    if reserves != [] {
      assert SecondComponents(reserves)[1..] == SecondComponents(reserves[1..]);
      assert forall i :: 0 <= i < |reserves[1..]| ==> reserves[1..][i].1 == None;
      NoPoolNoPositions(reserves[1..]);
    }
  }

  // ---------------------------------------------------------------------------
  // View state

  /** `!account`: no account, and the empty string, are falsy. */
  predicate IsConnected(account: Option<string>)
  {
    account.Some? && account.value != ""
  }

  /** The ternary chain of the page: first match wins. */
  function SelectView(account: Option<string>, loading: bool, positions: seq<Pair>): (v: ViewState)
    ensures v.Disconnected? <==> account == None || account == Some("")
    ensures v.Loading? <==> account != None && account != Some("") && loading
    ensures v.HasPositions? <==> account != None && account != Some("") && !loading && |positions| > 0
    ensures v.Empty? <==> account != None && account != Some("") && !loading && |positions| == 0
    ensures v.HasPositions? ==> v.positions == positions
  {
    if !IsConnected(account) then Disconnected
    else if loading then Loading
    else if |positions| > 0 then HasPositions(positions)
    else Empty
  }

  /** One evaluation of the page from a snapshot of its inputs. */
  function PoolPage(account: Option<string>, tracked: seq<TokenPair>, lpToken: TokenPair -> Token,
                    balances: map<Address, int>, fetchingBalances: bool, reserves: seq<ReserveEntry>): (s: PageState)
    ensures s.liquidityTokens == LiquidityTokens(WithLiquidityTokens(tracked, lpToken))
    ensures s.requested == RequestedPairs(Candidates(tracked, lpToken, balances))
    ensures s.loading <==> fetchingBalances || |reserves| < |s.requested|
    ensures s.positions == Positions(reserves)
    ensures s.view == SelectView(account, s.loading, s.positions)
  {
    var withTokens := WithLiquidityTokens(tracked, lpToken);
    var candidates := WithBalances(withTokens, balances);
    var loading := IsLoading(fetchingBalances, reserves, candidates);
    LoadingAsWritten(fetchingBalances, reserves, candidates);
    var positions := Positions(reserves);
    PageState(LiquidityTokens(withTokens), RequestedPairs(candidates), loading, positions,
              SelectView(account, loading, positions))
  }

  /** With no account the page is Disconnected, whatever else it is given. */
  lemma DisconnectedDominates(tracked: seq<TokenPair>, lpToken: TokenPair -> Token,
                              balances: map<Address, int>, fetchingBalances: bool, reserves: seq<ReserveEntry>)
    ensures PoolPage(None, tracked, lpToken, balances, fetchingBalances, reserves).view == Disconnected
    ensures PoolPage(Some(""), tracked, lpToken, balances, fetchingBalances, reserves).view == Disconnected
  {
  }

  /** With an account, fetching balances or missing reserve entries keep the
      page Loading, whatever the position list. */
  lemma LoadingDominatesPositions(account: Option<string>, tracked: seq<TokenPair>, lpToken: TokenPair -> Token,
                                  balances: map<Address, int>, fetchingBalances: bool, reserves: seq<ReserveEntry>)
    requires IsConnected(account)
    requires fetchingBalances || |reserves| < |Candidates(tracked, lpToken, balances)|
    ensures PoolPage(account, tracked, lpToken, balances, fetchingBalances, reserves).view == Loading
  {
  }

  /** Reserve entries that are all still unresolved (`null` pairs) do not
      keep the page loading: once balances are in and there are as many
      entries as candidates, the page shows Empty. */
  lemma PendingReservesShowEmpty(account: Option<string>, tracked: seq<TokenPair>, lpToken: TokenPair -> Token,
                                 balances: map<Address, int>, reserves: seq<ReserveEntry>)
    requires IsConnected(account)
    requires |reserves| >= |Candidates(tracked, lpToken, balances)|
    requires forall i :: 0 <= i < |reserves| ==> reserves[i].1 == None
    ensures PoolPage(account, tracked, lpToken, balances, false, reserves).view == Empty
  {
    NoPoolNoPositions(reserves);
  }

  /** A pool is shown exactly when the page is settled and some reserve
      entry holds it; the shown list is the position list unchanged. */
  lemma ShownPools(account: Option<string>, tracked: seq<TokenPair>, lpToken: TokenPair -> Token,
                   balances: map<Address, int>, fetchingBalances: bool, reserves: seq<ReserveEntry>, p: Pair)
    ensures var v := PoolPage(account, tracked, lpToken, balances, fetchingBalances, reserves).view;
      (v.HasPositions? && p in v.positions) <==>
        IsConnected(account) && !fetchingBalances
        && |reserves| >= |Candidates(tracked, lpToken, balances)|
        && exists i :: 0 <= i < |reserves| && reserves[i].1 == Some(p)
  {
    PositionsMember(reserves, p);
  }
}
