/** Response assembly for the balance endpoint: one balance query per address,
    the per-address result list, and the response with the aggregate sum. */
module TransportUtils {
  import opened Wrappers
  import opened Text
  import opened EndpointBalance

  /** The block a query reads: a given height, or "latest". */
  datatype BlockTag = Latest | AtHeight(height: int)

  /** One `provider.getBalance(address, blockTag)` call. */
  datatype BalanceQuery = BalanceQuery(address: string, blockTag: BlockTag)

  /** What one call gives: an integer amount in base units, or a rejection with its message. */
  datatype FetchOutcome = Fetched(amount: int) | FetchFailed(message: string)

  /** The upstream node as seen during one fetch: the outcome of each query. */
  type Provider = BalanceQuery -> FetchOutcome

  datatype AddressBalance = AddressBalance(address: string, balance: string)

  datatype Timestamps = Timestamps(
    providerDataRequestedUnixMs: Option<int>,
    providerDataReceivedUnixMs: Option<int>,
    providerIndicatedTimeUnixMs: Option<int>)

  /** The adapter response of the balance endpoint. */
  datatype BalanceResponse = BalanceResponse(
    result: string, statusCode: int, data: seq<AddressBalance>, timestamps: Timestamps)

  /** What `getBalances` resolves to: the raw amounts and the per-address results. */
  datatype Balances = Balances(balances: seq<int>, results: seq<AddressBalance>)

  /** The query for one entry: the lower-cased address, and the block height
      when one is given (`??` keeps a height of 0) or "latest" otherwise. */
  function QueryFor(a: AddressInfo): (q: BalanceQuery)
    ensures q.address == ToLower(a.address)
    ensures a.blockHeight.None? ==> q.blockTag == Latest
    ensures a.blockHeight.Some? ==> q.blockTag == AtHeight(a.blockHeight.value)
  {
    BalanceQuery(ToLower(a.address), if a.blockHeight.Some? then AtHeight(a.blockHeight.value) else Latest)
  }

  /** `Promise.all` over the queries: all amounts in query order, or the first
      rejection (taken in list order). */
  function FetchAll(queries: seq<BalanceQuery>, provider: Provider): (r: Result<seq<int>, string>)
    ensures r.Success? <==> forall i :: 0 <= i < |queries| ==> provider(queries[i]).Fetched?
    ensures r.Success? ==>
      && |r.value| == |queries|
      && forall i :: 0 <= i < |queries| ==> r.value[i] == provider(queries[i]).amount
    ensures r.Failure? ==> FetchFailed(r.error) in Outcomes(queries, provider)
  {
    if queries == [] then Success([])
    else match provider(queries[0])
      case FetchFailed(m) => Failure(m)
      case Fetched(b) =>
        match FetchAll(queries[1..], provider)
        case Failure(m) => Failure(m)
        case Success(rest) => Success([b] + rest)
  }

  /** The outcomes of all queries, in order. */
  function Outcomes(queries: seq<BalanceQuery>, provider: Provider): (r: seq<FetchOutcome>)
    ensures |r| == |queries| && forall i :: 0 <= i < |queries| ==> r[i] == provider(queries[i])
  {
    if queries == [] then [] else [provider(queries[0])] + Outcomes(queries[1..], provider)
  }

  /** `getBalances`: one query per address; on success the results keep the
      input order, carry the input address unchanged and the formatted amount
      fetched for it.  `format` stands for `formatAmount`. */
  function GetBalances(addresses: seq<AddressInfo>, provider: Provider, format: int -> string): (r: Result<Balances, string>)
    ensures r.Success? <==> forall i :: 0 <= i < |addresses| ==> provider(QueryFor(addresses[i])).Fetched?
    ensures r.Success? ==>
      && |r.value.balances| == |addresses| && |r.value.results| == |addresses|
      && forall i :: 0 <= i < |addresses| ==>
           && r.value.balances[i] == provider(QueryFor(addresses[i])).amount
           && r.value.results[i] == AddressBalance(addresses[i].address, format(r.value.balances[i]))
    ensures r.Failure? ==> exists i :: 0 <= i < |addresses| && provider(QueryFor(addresses[i])) == FetchFailed(r.error)
  {
    var queries := seq(|addresses|, i requires 0 <= i < |addresses| => QueryFor(addresses[i]));
    match FetchAll(queries, provider)
    case Failure(m) =>
      assert FetchFailed(m) in Outcomes(queries, provider);
      Failure(m)
    case Success(balances) =>
      assert forall i :: 0 <= i < |addresses| ==> queries[i] == QueryFor(addresses[i]);
      Success(Balances(balances, seq(|addresses|, i requires 0 <= i < |addresses| =>
        AddressBalance(addresses[i].address, format(balances[i])))))
  }

  /** The sum of a sequence, as a reference definition. */
  function Total(s: seq<int>): int {
    if s == [] then 0 else s[0] + Total(s[1..])
  }

  /** `balances.reduce((sum, b) => sum.add(b), 0)`: a left fold from `acc`; it
      adds every element exactly once, so it ends at `acc` plus the total. */
  function SumFrom(acc: int, s: seq<int>): (r: int)
    ensures r == acc + Total(s)
    decreases s
  {
    if s == [] then acc else SumFrom(acc + s[0], s[1..])
  }

  lemma {:induction false} TotalAppend(s: seq<int>, t: seq<int>)
    ensures Total(s + t) == Total(s) + Total(t)
  {
    if s == [] {
      assert s + t == t;
    } else {
      assert (s + t)[1..] == s[1..] + t;
      TotalAppend(s[1..], t);
    }
  }

  /** `makeResponse`: status 200, the per-address results as `data.result`, the
      formatted total of the unrounded balances as `result`, both request and
      receipt stamped with `now`, and no provider-indicated time. */
  function MakeResponse(balances: seq<int>, results: seq<AddressBalance>, format: int -> string, now: int): (r: BalanceResponse)
    ensures r.result == format(Total(balances))
    ensures r.statusCode == 200 && r.data == results
    ensures r.timestamps == Timestamps(Some(now), Some(now), None)
  {
    BalanceResponse(format(SumFrom(0, balances)), 200, results, Timestamps(Some(now), Some(now), None))
  }

  /** The aggregate of a two-address request is the formatted sum of both raw amounts. */
  lemma TwoAddressAggregate(a: AddressInfo, b: AddressInfo, provider: Provider, format: int -> string, now: int)
    requires provider(QueryFor(a)).Fetched? && provider(QueryFor(b)).Fetched?
    ensures var r := GetBalances([a, b], provider, format);
      && r.Success?
      && MakeResponse(r.value.balances, r.value.results, format, now).result
           == format(provider(QueryFor(a)).amount + provider(QueryFor(b)).amount)
  {
    var r := GetBalances([a, b], provider, format);
    assert r.Success?;
    var s := r.value.balances;
    assert s == [s[0], s[1]];
    assert Total(s) == s[0] + Total(s[1..]);
    assert s[1..] == [s[1]];
    assert Total([s[1]]) == s[1] + Total([]);
  }
}
