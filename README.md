# Gemini external adapter: a Dafny model of its core

The adapter serves two endpoints:

- **`balance`** sums the ether balances of a list of Ethereum addresses.
  - Requests are registered by fingerprint (the JSON text of their address list) in a bounded, insertion-ordered set, `LimitedCapacitySet`.
  - On every new block, a listener refetches each live fingerprint and writes the fresh response to the response cache. A failing fingerprint leaves its previous entry in place.
  - The foreground path answers from the cache. On a miss it fetches, writes and returns; a failed fetch becomes a 502.
- **`price`** streams Gemini trade prices over a websocket.
  - `subscribeMessage` records the last-subscribed parameters and maps the upper-cased pair symbol back to the request parameters.
  - The `message` handler answers an error frame for the last-subscribed parameters. It answers a `sell` trade for the parameters its symbol maps back to. It throws on a non-error frame with no `changes` (reading `changes[0][0]` fails), and drops every other frame.

Both endpoints validate their input first. `balance` checks for an empty list, then checks each entry: address first, then block height. `price` rejects an empty `base`, then an empty `quote`.

Modules, one per source file or concept:

- `FifoSet` is the pure state of `LimitedCapacitySet` and its laws.
  - The set is the array of items plus the JS `Set`. The `Set` is kept as an insertion-ordered sequence, because `values()` iterates it in insertion order.
  - JS truthiness is modelled exactly: a falsy oldest item (`""`) is shifted out of the array but stays in the `Set`.
  - A capacity of 0 behaves like 1, because `shift()` on an empty array does nothing.
- `TransportBalance` holds the classes `LimitedCapacitySet` and `BalanceTransport`. Their methods are proved against the `FifoSet` functions and against the pure `RefreshPass` and `Foreground`.
- `TransportUtils` models `getBalances`, `makeResponse` and the sum of the balances.
- `AmountFormat` is an integer reference for `formatAmount`, used by the model of the integration test's numbers.
- `TransportPrice` holds the price transport's state (the `WsTransport` class), the builders and the handler.
- `EndpointBalance` and `EndpointPrice` hold the `customInputValidation` functions.
- `Text` has ASCII case mapping and decimal numerals. `Wrappers` has `Option` and `Result`. `Errors` has the adapter's error values.

Effects become parameters:

- A node's answer to `getBalance` is a function `Provider` from (lower-cased address, block tag) to an amount or a failure message.
- `Date.now()` is a single `now` per call or per pass.
- `JSON.stringify` and `JSON.parse` on address lists are functions kept by the transport. The model needs two facts about them: parsing undoes stringifying, and the text of a list is never empty.
- `formatAmount` is a function `format` inside the transport.
- `ethers.utils.isAddress` is a predicate parameter of the validator.
- The response cache is a map keyed by the address list.

## Model

| member | source | states |
|---|---|---|
| FifoSet.Bound | src/transport/balance.ts:51-53 | the effective capacity is at least 1 and at least the configured capacity, since shifting an empty array removes nothing |
| FifoSet.Empty | src/transport/balance.ts:41-47 | a new set is empty, keeps its capacity and satisfies the invariant |
| FifoSet.Has | src/transport/balance.ts:60-62 | membership is the set's; in a valid state, a truthy item is a member exactly when the array holds it |
| FifoSet.Added | src/transport/balance.ts:49-58 | after `add(x)`, `x` is a member; adding a member changes nothing; no member other than `x` appears |
| FifoSet.AddedValid | src/transport/balance.ts:49-58 | `add` preserves the invariant: no repeats, array and set agree except for a lingering falsy item, array within the effective capacity |
| FifoSet.AddedWithinCapacity | src/transport/balance.ts:51-55 | with capacity at least 1, the array never holds more than `capacity` items after `add` |
| FifoSet.ReAddedNotReordered | src/transport/balance.ts:50 | re-adding a member leaves array and set exactly as they were, so it does not move to the back |
| FifoSet.AddedWithRoom | src/transport/balance.ts:50-56 | adding a new item below capacity appends it to both the array and the set |
| FifoSet.AddedToFullEvictsOldest | src/transport/balance.ts:51-56 | adding a new item to a full set evicts exactly the oldest item, keeps every other member and appends the new one |
| FifoSet.MirroredWhileTruthy | src/transport/balance.ts:49-70 | while no falsy item is present, array and set hold the same sequence, and `add` of a truthy item or `delete` keeps it so |
| FifoSet.FifoEviction | src/transport/balance.ts:49-58 | adding distinct truthy items one by one leaves exactly the newest `capacity` of them, in insertion order, in both array and set |
| FifoSet.AddedAllValid | src/transport/balance.ts:49-58 | any sequence of `add` calls preserves the invariant |
| FifoSet.EvictionExample | src/transport/balance.ts:49-58 | capacity 3, adds A B C D: A is gone, B C D remain |
| FifoSet.NoReorderExample | src/transport/balance.ts:49-58 | capacity 3, adds A B C A D: the second A did not refresh A, so A is the one evicted |
| FifoSet.IndexOf | src/transport/balance.ts:65 | `indexOf`: -1 exactly when absent, otherwise an index holding the item with no earlier occurrence |
| FifoSet.Without | src/transport/balance.ts:68 | `Set.delete`: one element shorter when present, the same membership for every other value, unchanged when absent |
| FifoSet.WithoutIsSplice | src/transport/balance.ts:65-67 | removing the first occurrence equals splicing one element out at `indexOf` |
| FifoSet.Deleted | src/transport/balance.ts:64-70 | `delete(x)` does nothing unless the array holds `x`; then the array loses one item; every other value keeps its membership |
| FifoSet.DeletedBySplice | src/transport/balance.ts:64-70 | `delete` on a present item is the splice at `indexOf` on the array plus `Set.delete` on the set |
| FifoSet.DeletedValid | src/transport/balance.ts:64-70 | `delete` preserves the invariant, and a deleted array item is no longer a member |
| TransportBalance.LimitedCapacitySet.constructor | src/transport/balance.ts:41-47 | a new set is the empty state with the given capacity |
| TransportBalance.LimitedCapacitySet.Add | src/transport/balance.ts:49-58 | the new state is `FifoSet.Added` of the old one, and the invariant holds |
| TransportBalance.LimitedCapacitySet.Has | src/transport/balance.ts:60-62 | membership is the set's; for a truthy item it agrees with the array |
| TransportBalance.LimitedCapacitySet.Delete | src/transport/balance.ts:64-70 | the new state is `FifoSet.Deleted` of the old one, and the invariant holds |
| TransportBalance.LimitedCapacitySet.Values | src/transport/balance.ts:72-74 | iteration yields exactly the members, without repeats, in the array's order while no falsy item lingers |
| TransportBalance.BalanceTransport.constructor | src/transport/balance.ts:77-82 | the transport starts with an empty request set of capacity 10000, no listener and an empty cache |
| TransportBalance.BalanceTransport.GetRequestId | src/transport/balance.ts:108-110 | the fingerprint is never empty and parses back to the address list |
| TransportBalance.BalanceTransport.RegisterRequest | src/transport/balance.ts:98-106 | the request's fingerprint is added (`FifoSet.Added`) and is then a live request; the transport invariant holds |
| TransportBalance.BalanceTransport.BackgroundExecute | src/transport/balance.ts:112-150 | the listener is installed afterwards; a call that finds it installed returns without registering again, and a first call registers it exactly once, so at most one `provider.on` registration ever exists |
| TransportBalance.RefreshedEntry | src/transport/balance.ts:121-145 | what one listener turn leaves for its request: the fresh response when every fetch succeeds, otherwise the old entry; an existing entry is never lost |
| TransportBalance.Refreshed | src/transport/balance.ts:121-145 | one listener turn changes only its own request's cache entry, to the fresh response on success and to the old entry on failure |
| TransportBalance.BalanceTransport.RefreshRequest | src/transport/balance.ts:121-145 | the `try`/`catch` body leaves the cache as `Refreshed` of the old cache |
| TransportBalance.RefreshPass | src/transport/balance.ts:117-147 | a listener pass over the fingerprints in order never drops a cache entry, and every entry it adds is for a visited request |
| TransportBalance.RefreshPassUntouched | src/transport/balance.ts:117-147 | a listener pass never changes the entry of a request it does not visit |
| TransportBalance.DistinctIdsHaveDistinctKeys | src/transport/balance.ts:108-120 | distinct fingerprints that are the JSON text of their parse denote distinct address lists |
| TransportBalance.PassIsolation | src/transport/balance.ts:117-147 | in one pass each visited request ends with its own fresh response, or with its previous entry when its fetch fails, whatever happened to the others |
| TransportBalance.PassIsolationAll | src/transport/balance.ts:117-147 | the same for every visited request at once |
| TransportBalance.BalanceTransport.OnBlock | src/transport/balance.ts:117-147 | the listener's loop over `values()` computes `RefreshPass` of the old cache, and each live request ends with its own refreshed entry |
| TransportBalance.Foreground | src/transport/balance.ts:152-188 | a hit is returned unchanged and nothing is written; a success is written under the request's key and returned; a failure is a 502 and writes nothing |
| TransportBalance.ForegroundMissRefreshes | src/transport/balance.ts:163-181 | on a miss the foreground path writes exactly what a listener turn writes, and succeeds exactly when the fetches do |
| TransportBalance.ForegroundReadsItsWrite | src/transport/balance.ts:155-181 | after a successful foreground answer, asking again returns the same response whatever the node now says, and writes nothing |
| TransportBalance.BalanceTransport.ForegroundExecute | src/transport/balance.ts:152-188 | the method's result and new cache are those of `Foreground` on the old cache |
| TransportUtils.QueryFor | src/transport/utils.ts:42-46 | each query is for the lower-cased address, at the block height when given and at `latest` otherwise |
| TransportUtils.Outcomes | src/transport/utils.ts:41-48 | one node answer per query, in order |
| TransportUtils.FetchAll | src/transport/utils.ts:41-48 | `Promise.all` succeeds exactly when every fetch succeeds, with the amounts in order; a failure carries the message of a failed fetch |
| TransportUtils.GetBalances | src/transport/utils.ts:33-56 | succeeds exactly when every address's fetch succeeds; then one balance and one `{address, formatted balance}` per address, in order, with the address as given; a failure carries one address's failure message |
| TransportUtils.SumFrom | src/transport/utils.ts:20 | the `reduce` fold from an initial sum ends at that sum plus the reference total of the balances, so from 0 it is the total |
| TransportUtils.TotalAppend | src/transport/utils.ts:20 | the total of a concatenation is the sum of the totals |
| TransportUtils.MakeResponse | src/transport/utils.ts:11-31 | the result is the formatting of the exact total, with status 200, the per-address results as data, and requested and received times equal to `now` with no provider-indicated time |
| TransportUtils.TwoAddressAggregate | src/transport/utils.ts:11-56 | for two fetched addresses, the response's result is the formatting of the sum of both raw balances |
| AmountFormat.RoundedCentsNearest | src/transport/utils.ts:5-9 | the reference rounding is to the nearest hundredth of an ether |
| AmountFormat.FormatAmountReadsBack | src/transport/utils.ts:5-9 | the rendering is digits, a point and two digits that read back as the rounded hundredths |
| AmountFormat.IntegrationTestAmounts | test/integration/balanceAdapter.test.ts:97-99 | the fixture balances render as "14.61" and "0.78", and their exact sum as "15.40" rather than the 15.39 of the rounded parts |
| AmountFormat.IntegrationTestResponse | test/integration/balanceAdapter.test.ts:80-100 | the two-address response carries per-address results "14.61" and "0.78" and the result "15.40" |
| TransportPrice.Pair | src/transport/price.ts:78 | the pair symbol is the upper-cased base followed by the upper-cased quote |
| TransportPrice.Subscribed | src/transport/price.ts:76-79 | subscribing sets the latest parameters and maps the pair symbol to them; every other symbol's mapping is unchanged |
| TransportPrice.UnsubscribeMessage | src/transport/price.ts:90-100 | an `unsubscribe` with one `l2` subscription for exactly the pair symbol |
| TransportPrice.HandleMessage | src/transport/price.ts:28-73 | entries are emitted exactly for an error frame or a mapped trade frame, always one entry; it throws exactly when a non-error frame has no changes; the entry is for the latest or a mapped parameter set; status 502 exactly for error frames |
| TransportPrice.ErrorTakesPrecedence | src/transport/price.ts:29-40 | an error frame is answered for the latest parameters with its reason, whatever else it carries |
| TransportPrice.NonTradeDropped | src/transport/price.ts:42-45 | a frame whose first change is not `sell` yields nothing, in every state |
| TransportPrice.SubscribeThenTrade | src/transport/price.ts:47-72 | after subscribing a pair, a trade for its symbol is answered once, for that pair, with status 200 and the frame's price |
| TransportPrice.SubscribeThenError | src/transport/price.ts:29-40 | after subscribing a pair, an error frame is answered for that pair |
| TransportPrice.SecondSubscription | src/transport/price.ts:21 | a second subscription keeps the first pair's trades routed to it but takes over the error frames |
| TransportPrice.BeforeAnySubscription | src/transport/price.ts:21 | before any subscription, an error frame goes to empty parameters and no trade is routed |
| TransportPrice.EthUsdRoundTrip | test/integration/fixtures.ts:26-32 | ETH/USD subscribes to "ETHUSD", and the fixture's trade for "ETHUSD" routes back to ETH/USD |
| TransportPrice.CaseVariantsShareSymbol | src/transport/price.ts:78-79 | "eth"/"usd" and "ETH"/"USD" share one symbol, and the later subscription owns it |
| TransportPrice.UnknownPairAnsweredWithError | test/integration/fixtures.ts:47-54 | the provider's change-less error frame for BTC1/USD is answered with a 502 for that pair rather than a failure |
| TransportPrice.WsTransport.constructor | src/transport/price.ts:21 | the transport starts with empty latest parameters and an empty mapping |
| TransportPrice.WsTransport.SubscribeMessage | src/transport/price.ts:76-89 | the new state is `Subscribed` of the old; the message is a `subscribe` with the same subscriptions as the matching unsubscribe |
| TransportPrice.WsTransport.Message | src/transport/price.ts:28-73 | an error frame is answered for the current latest parameters; any other answer is a mapped trade at status 200 with the frame's price |
| EndpointBalance.EntryError | src/endpoint/balance.ts:69-84 | an entry is rejected exactly when its address is invalid or its block height is given and outside 0..2^53-1; the address check comes first; each rejection has its message and status 400 |
| EndpointBalance.FirstEntryError | src/endpoint/balance.ts:68-85 | the loop passes exactly when every entry passes; a rejection has status 400 |
| EndpointBalance.FirstEntryErrorAt | src/endpoint/balance.ts:68-85 | the loop reports the first failing entry |
| EndpointBalance.CustomInputValidation | src/endpoint/balance.ts:58-87 | an empty list is rejected with its message; otherwise a request passes exactly when every entry does; every rejection has status 400 |
| EndpointBalance.FirstFailingEntryDecides | src/endpoint/balance.ts:62-85 | for a non-empty list, the validator's error is the error of the first failing entry |
| EndpointBalance.AbsentBlockHeightNeverRejected | src/endpoint/balance.ts:75-79 | an entry without a block height is rejected only for its address |
| EndpointBalance.NegativeBlockHeightExample | test/integration/balanceAdapter.test.ts:118-133 | a valid address at height -1 is rejected with the block-height message naming the address and "-1" |
| EndpointPrice.CustomInputValidation | src/endpoint/price.ts:47-64 | a request passes exactly when base and quote are both non-empty; an empty base is reported before an empty quote, each with status 400 |
| EndpointPrice.ValidationExamples | test/integration/priceAdapter.test.ts:67-85 | the test's requests give the "base" error, the "quote" error, or pass |
| Text.ToLower | src/transport/utils.ts:44 | lower-casing preserves length and maps each character |
| Text.ToUpper | src/transport/price.ts:78 | upper-casing preserves length and maps each character |
| Text.ToUpperConcat | src/transport/price.ts:78 | upper-casing the concatenation equals concatenating the upper-cased parts |
| Text.NatToStringRoundTrip | src/endpoint/balance.ts:82 | the decimal numeral of a block height is non-empty, all digits, and reads back as the number |
| Text.NatToStringInjective | src/endpoint/balance.ts:82 | distinct heights give distinct numerals in the message |

## Left out

- Network I/O is not modelled: the JSON-RPC provider, the websocket connection and the framework's subscription and cache machinery. The node's answers are a `Provider` parameter, and the response cache is a map.
- `initialize` (src/transport/balance.ts:84-96) only stores dependencies and builds the RPC client, so it is not modelled. The transport `name` used as the cache namespace is omitted.
- The cache key is assumed to be the address list itself. The framework derives `requestContext.cacheKey` from the parameters, and that code is not part of this model. The cache's TTL and its eviction are not modelled.
- A failing `responseCache.write` is not modelled. Neither are the `console.error` and logger calls.
- Concurrency is not modelled:
  - the parallelism of `Promise.all`;
  - overlapping listener runs when blocks arrive faster than a pass ends;
  - requests registered or cache entries written while a pass is suspended at an `await`.
- TransportBalance.BalanceTransport.OnBlock iterates a snapshot of `values()`. A live JS `Set` iterator would also visit fingerprints added during the pass.
- TransportUtils.GetBalances reports the failure of the first failing address in list order. `Promise.all` rejects with whichever fetch fails first in time.
- TransportUtils.FetchAll: the same simplification as GetBalances.
- AmountFormat.FormatAmount is an integer reference: round half up to hundredths of ether. The real `parseFloat(formatUnits(..)).toFixed(2)` goes through binary floating point, so it can differ on ties and beyond 2^53 wei of precision, and it switches to exponent form at 1e21. Inside the transport, `formatAmount` stays an abstract function `format`.
- TransportPrice.HandleMessage leaves the price as the uninterpreted `ParseFloat(text)`, because floating-point parsing is not modelled.
- TransportPrice.HandleMessage models only the frame's first change and its symbol. A frame that is not an object, or a change that is not a list, is not modelled. `Throws` stands for the `TypeError` raised by reading `changes[0]` of an empty list.
- `JSON.stringify` of the subscribe and unsubscribe messages is not modelled: the builders return the message value before serialisation.
- `JSON.stringify` and `JSON.parse` on address lists are abstract. The only facts used are that parse undoes stringify and that the text is never empty.
- Case mapping is ASCII only. Unicode case mapping is not modelled.
- EndpointBalance.EntryError takes block heights as integers. The source declares `blockHeight` with type `number` (src/endpoint/balance.ts:21-25), so a fractional height such as 1.5 reaches this validator. It also passes the range check at src/endpoint/balance.ts:75-79, despite the message saying "non-negative integer". The model cannot represent fractional heights, so it does not capture that acceptance. `NaN` and infinite heights are not modelled either. `ethers.utils.isAddress` is a predicate parameter.
- EndpointBalance.InvalidBlockHeightMessage writes every digit of the height. It matches the source's `${address.blockHeight}` only when the height's magnitude is at most 2^53. Above that, JavaScript prints the shortest digits that read back as the same double and pads them with zeros. For example, 2^60 prints as "1152921504606847000", where the model writes "1152921504606846976". From 10^21 on, JavaScript also switches to exponent form ("1e+21"). These are exactly the heights the range check rejects as too large. The model's integer heights also include values no double can hold, such as 2^53+1.
- TransportBalance.LimitedCapacitySet is specialised to strings, its only use. Truthiness of other element types (0, `false`, `null`) is not modelled.
- TransportUtils.MakeResponse uses one `now` for both timestamps. The source calls `Date.now()` twice, and the two calls may differ by a millisecond.
