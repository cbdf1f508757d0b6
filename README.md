# Pool page position aggregator

This is a Dafny model of the logic in the liquidity "Pool" page (`src/pages/Pool/index.tsx`) that decides what the page shows. The page takes the connected account, the token pairs the user tracks, the user's balances of each pair's liquidity token and the reserves fetched for the pairs that have a balance. From these it derives:

- the liquidity tokens whose balances it asks for;
- the candidate pairs (a present, positive balance) whose reserves it asks for;
- a loading flag;
- the list of pools to show;
- one of four view states: `Disconnected`, `Loading`, `HasPositions(list)` or `Empty`.

Every derivation in the page is a pure expression, so the model is made of functions and lemmas (`pool.dfy`, module `Pool`). `wrappers.dfy` holds the `Option` type that stands for a JavaScript value that may be `null` or `undefined`.

The collaborators are inputs of the model:
- `toV2LiquidityToken` is the arrow parameter `lpToken`.
- The balance fetcher's answer is `balances: map<Address, int>`. A missing key stands for an `undefined` entry. The fetcher's flag is `fetchingBalances`.
- The reserve fetcher's answer is `reserves`, a sequence of `[state, pair]` entries. The pair in an entry is `None` for `null`.

Two behaviours of the code as written are kept on purpose:

- **The third loading disjunct is dead.** Line 96, `v2Pairs?.some((V2Pair) => !V2Pair)`, negates the `[state, pair]` entry, not the pair in it. A JavaScript array is always truthy, so the disjunct never holds (`NoEntryIsFalsy`). Loading is therefore exactly "balances are being fetched, or there are fewer reserve entries than candidates" (`LoadingAsWritten`).
- **Pending reserves do not show Loading.** The third disjunct of line 96 looks meant to wait for `null` pairs, but it negates the `[state, pair]` entry. So a pending `[LOADING, null]` entry does not keep the page in `Loading` (`NullPairDoesNotLoad`, `PendingEntryDoesNotLoad`). With a connected account, settled balances and one such entry per candidate, the page shows `Empty` (`PendingReservesShowEmpty`).

`!account` is modelled with JavaScript truthiness. `null`, `undefined` and the empty string all select `Disconnected`.

## Model

| member | source | states |
|---|---|---|
| Pool.WithLiquidityTokens | src/pages/Pool/index.tsx:70-73 | one entry per tracked pair, same length and order; entry i holds tracked pair i and `toV2LiquidityToken` of it |
| Pool.LiquidityTokens | src/pages/Pool/index.tsx:74-77 | same length as its input; element i is the liquidity token of entry i |
| Pool.LiquidityTokensOfTracked | src/pages/Pool/index.tsx:70-77 | the tokens sent to the balance fetcher number as many as the tracked pairs; token i is `toV2LiquidityToken(trackedTokenPairs[i])` |
| Pool.HasPositiveBalance | src/pages/Pool/index.tsx:87 | `?.greaterThan('0')` as a condition; no contract of its own, its meaning (absent or non-positive is false) is stated by `WithBalancesMember` |
| Pool.WithBalances | src/pages/Pool/index.tsx:84-90 | the candidates are no more than the entries; each candidate is one of the entries and has a present, positive balance |
| Pool.WithBalancesMember | src/pages/Pool/index.tsx:84-90 | an entry is a candidate if and only if the balance map has its liquidity-token address with an amount > 0; absent or non-positive balances are excluded |
| Pool.WithBalancesIsSubsequence | src/pages/Pool/index.tsx:86-88 | the candidates form an order-preserving subsequence of the entries |
| Pool.WithBalancesAppend | src/pages/Pool/index.tsx:86-88 | filtering a concatenation is the concatenation of the filtered parts, so earlier pairs stay before later ones |
| Pool.WithBalancesMultiplicity | src/pages/Pool/index.tsx:86-88 | duplicates are not removed: a candidate occurs as often as it occurs among the entries, or not at all when its balance is absent or not positive |
| Pool.SharedAddressSameFate | src/pages/Pool/index.tsx:86-88 | two entries whose liquidity tokens share an address are both candidates or neither is |
| Pool.Candidates | src/pages/Pool/index.tsx:84-90 | `liquidityTokensWithBalances`; no contract of its own, its meaning is stated by `TrackedPairIsCandidate` and its order by `RequestedPairsAreOrderedSubset` |
| Pool.TrackedPairIsCandidate | src/pages/Pool/index.tsx:69-90 | a tracked pair, beside its liquidity token, is a candidate if and only if it is tracked and its liquidity-token balance is present and positive |
| Pool.RequestedPairs | src/pages/Pool/index.tsx:92 | one requested pair per candidate, in order: the candidate's token pair |
| Pool.RequestedPairsAreOrderedSubset | src/pages/Pool/index.tsx:69-92 | the pairs whose reserves are requested form an order-preserving subsequence of the tracked pairs |
| Pool.IsTruthy | src/pages/Pool/index.tsx:96 | JavaScript truthiness of a `[state, pair]` entry, an array, which is always truthy; its consequence is stated by `NoEntryIsFalsy` |
| Pool.SomeFalsy | src/pages/Pool/index.tsx:96 | `v2Pairs.some((V2Pair) => !V2Pair)`; no contract of its own, stated to be always false by `NoEntryIsFalsy` |
| Pool.NoEntryIsFalsy | src/pages/Pool/index.tsx:96 | `some(V2Pair => !V2Pair)` over the reserve entries is false for every reserve answer |
| Pool.IsLoading | src/pages/Pool/index.tsx:93-96 | `v2IsLoading` with its three disjuncts as written; no contract of its own, reduced to its two live disjuncts by `LoadingAsWritten` |
| Pool.LoadingAsWritten | src/pages/Pool/index.tsx:93-96 | loading holds if and only if balances are being fetched or there are fewer reserve entries than candidates |
| Pool.LoadingIgnoresEntries | src/pages/Pool/index.tsx:93-96 | two reserve answers of the same length give the same loading flag, so a `null` pair does not force loading |
| Pool.NullPairDoesNotLoad | src/pages/Pool/index.tsx:93-96 | with balances settled and no reserve entry missing, loading is false even though some entry holds a `null` pair |
| Pool.PendingEntryDoesNotLoad | src/pages/Pool/index.tsx:93-96 | for one candidate and the answer `[[LOADING, null]]`, a `null` pair is present and yet the page is not loading |
| Pool.SecondComponents | src/pages/Pool/index.tsx:97 | same length as the reserve answer; element i is the pair of entry i |
| Pool.PresentPairs | src/pages/Pool/index.tsx:97 | no more pools than inputs, and every pool kept was present (non-null) in the input |
| Pool.Positions | src/pages/Pool/index.tsx:97 | `allV2PairsWithLiquidity`; no contract of its own, pinned down by `PositionsMember`, `PositionsAppend` and `PositionsCount` |
| Pool.PositionsMember | src/pages/Pool/index.tsx:97 | a pool is in the position list if and only if some reserve entry holds it |
| Pool.PositionsAppend | src/pages/Pool/index.tsx:97 | positions of a concatenation are the concatenation of the positions, so reserve order is kept |
| Pool.PositionsCount | src/pages/Pool/index.tsx:97 | there are at most as many positions as reserve entries, and exactly as many if and only if no entry holds `null` |
| Pool.NoPoolNoPositions | src/pages/Pool/index.tsx:97 | when every entry holds `null` there are no positions |
| Pool.IsConnected | src/pages/Pool/index.tsx:125 | the negation of `!account`: `null`, `undefined` and the empty string are not connected; stated through `SelectView` and `DisconnectedDominates` |
| Pool.SelectView | src/pages/Pool/index.tsx:125-155 | first match wins: Disconnected if and only if no truthy account; Loading if and only if an account and loading; HasPositions if and only if an account, not loading and a non-empty list, and it carries that list unchanged; Empty if and only if an account, not loading and an empty list |
| Pool.PoolPage | src/pages/Pool/index.tsx:66-155 | one evaluation: the balance request is the tracked pairs' liquidity tokens; the reserve request is the candidates' pairs; loading is exactly "fetching balances, or fewer entries than requested pairs"; the view is selected from these |
| Pool.DisconnectedDominates | src/pages/Pool/index.tsx:125-131 | with no account, or the empty string, the view is Disconnected whatever the pairs, balances, reserves or loading flag |
| Pool.LoadingDominatesPositions | src/pages/Pool/index.tsx:93-137 | with an account, fetching balances or a short reserve answer gives Loading whatever the position list |
| Pool.PendingReservesShowEmpty | src/pages/Pool/index.tsx:93-155 | with an account, settled balances, enough reserve entries and all pairs `null`, the view is Empty and not Loading |
| Pool.ShownPools | src/pages/Pool/index.tsx:93-143 | a pool is shown if and only if there is an account, balances are settled, no reserve entry is missing and some entry holds the pool |

## Left out

- Styled components, JSX markup, text, icons, routing links and theme lookups (src/pages/Pool/index.tsx:23-62, 99-169). These are presentation only.
- The code of `useActiveWeb3React`, `useTrackedTokenPairs`, `toV2LiquidityToken`, `useTokenBalancesWithLoadingIndicator`, `usePairs` and the `Pair` class of `@uniswap/sdk`. They are not part of this model. Their results are inputs, and `toV2LiquidityToken` is an arbitrary total function. The model does not tie `reserves` to the requested pairs, because the page does not check that either.
- `useMemo` caching and React re-rendering. The memoised values equal the plain expressions, so each one is a function of the current inputs.
- `CurrencyAmount` arithmetic. A balance is an integer, and `greaterThan('0')` is `> 0`.
- Excluding self-referential pairs and de-duplicating tracked pairs. The code does neither. `WithBalancesMultiplicity` states that duplicates are kept.
- A loading signal for reserve entries that are still pending. Line 96 does not produce one (see above).
