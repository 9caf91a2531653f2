/** The balance transport: the bounded FIFO set of live request fingerprints,
    registration, the block listener that refreshes every live request, and
    the foreground path that serves a request from the cache or fetches it. */
module TransportBalance {
  import opened Wrappers
  import opened Errors
  import FifoSet
  import opened EndpointBalance
  import opened TransportUtils

  /** `LimitedCapacitySet<string>`: `items` records insertion order, `itemSet`
      answers membership (a JavaScript `Set`, whose iteration order is
      insertion order). */
  class LimitedCapacitySet {
    var items: seq<string>
    var itemSet: seq<string>
    const capacity: nat

    function State(): FifoSet.State
      reads this
    {
      FifoSet.State(items, itemSet, capacity)
    }

    ghost predicate Valid()
      reads this
    {
      FifoSet.Valid(State())
    }

    constructor (capacity: nat)
      ensures Valid() && State() == FifoSet.Empty(capacity)
    {
      this.capacity := capacity;
      items := [];
      itemSet := [];
    }

    method Add(item: string)
      requires Valid()
      modifies this
      ensures Valid() && State() == FifoSet.Added(old(State()), item)
    {
      FifoSet.AddedValid(State(), item);
      if item !in itemSet {
        if |items| >= capacity {
          // `shift()` yields undefined on an empty array
          var oldest: Option<string> := if |items| > 0 then Some(items[0]) else None;
          if |items| > 0 {
            items := items[1..];
          }
          if oldest.Some? && FifoSet.Truthy(oldest.value) {
            itemSet := FifoSet.Without(itemSet, oldest.value);
          }
        }
        items := items + [item];
        itemSet := itemSet + [item];
      }
    }

    /** Membership is answered by the set; for a truthy item it agrees with the array. */
    function Has(item: string): (b: bool)
      reads this
      ensures b <==> FifoSet.Has(State(), item)
      ensures Valid() && FifoSet.Truthy(item) ==> (b <==> item in items)
    {
      item in itemSet
    }

    method Delete(item: string)
      requires Valid()
      modifies this
      ensures Valid() && State() == FifoSet.Deleted(old(State()), item)
    {
      ghost var st := State();
      FifoSet.DeletedValid(st, item);
      var index := FifoSet.IndexOf(items, item);
      if index > -1 {
        FifoSet.DeletedBySplice(st, item, index);
        items := items[..index] + items[index + 1..];
        itemSet := FifoSet.Without(itemSet, item);
      }
    }

    /** The set's iteration order: no repeats, exactly the members, and the
        insertion order of the array while no falsy item lingers. */
    function Values(): (vs: seq<string>)
      reads this
      ensures forall x :: x in vs <==> Has(x)
      ensures Valid() ==> FifoSet.NoDups(vs)
      ensures Valid() && !Has("") ==> vs == items
    {
      itemSet
    }
  }

  /** Capacity of the live-request set (the response cache holds 10000 entries). */
  const RequestCapacity: nat := 10000

  /** The response cache, keyed by the request's address list. */
  type Cache = map<seq<AddressInfo>, BalanceResponse>

  function Lookup(cache: Cache, key: seq<AddressInfo>): Option<BalanceResponse> {
    if key in cache then Some(cache[key]) else None
  }

  /** What a listener turn stores for a request: the fresh response, or the
      old entry when the fetch fails. */
  function RefreshedEntry(cache: Cache, addresses: seq<AddressInfo>, provider: Provider, format: int -> string, now: int)
    : (e: Option<BalanceResponse>)
    ensures Lookup(cache, addresses).Some? ==> e.Some?
    ensures GetBalances(addresses, provider, format).Failure? ==> e == Lookup(cache, addresses)
    ensures GetBalances(addresses, provider, format).Success? ==>
      var b := GetBalances(addresses, provider, format).value;
      e == Some(MakeResponse(b.balances, b.results, format, now))
  {
    match GetBalances(addresses, provider, format)
    case Success(b) => Some(MakeResponse(b.balances, b.results, format, now))
    case Failure(_) => Lookup(cache, addresses)
  }

  /** One turn of the listener's loop: fetch, and on success write the fresh
      response; a failure is caught and leaves the cache as it was. */
  function Refreshed(cache: Cache, addresses: seq<AddressInfo>, provider: Provider, format: int -> string, now: int): (c: Cache)
    ensures Lookup(c, addresses) == RefreshedEntry(cache, addresses, provider, format, now)
    ensures forall k :: k != addresses ==> Lookup(c, k) == Lookup(cache, k)
  {
    match GetBalances(addresses, provider, format)
    case Success(b) => cache[addresses := MakeResponse(b.balances, b.results, format, now)]
    case Failure(_) => cache
  }

  /** One listener pass over the fingerprints in order: it never drops an
      entry, and every entry it adds belongs to a visited request. */
  function RefreshPass(cache: Cache, ids: seq<string>, parse: string -> seq<AddressInfo>,
                       provider: Provider, format: int -> string, now: int): (r: Cache)
    ensures cache.Keys <= r.Keys
    ensures forall k :: k in r && k !in cache ==> exists i :: 0 <= i < |ids| && parse(ids[i]) == k
  {
    if ids == [] then cache
    else Refreshed(RefreshPass(cache, ids[..|ids| - 1], parse, provider, format, now),
                   parse(ids[|ids| - 1]), provider, format, now)
  }

  ghost predicate DistinctKeys(ids: seq<string>, parse: string -> seq<AddressInfo>) {
    forall i, j :: 0 <= i < j < |ids| ==> parse(ids[i]) != parse(ids[j])
  }

  /** Distinct fingerprints that are each the text of their own parse have distinct parses. */
  lemma DistinctIdsHaveDistinctKeys(ids: seq<string>, stringify: seq<AddressInfo> -> string, parse: string -> seq<AddressInfo>)
    requires FifoSet.NoDups(ids)
    requires forall id :: id in ids ==> stringify(parse(id)) == id
    ensures DistinctKeys(ids, parse)
  {
    forall a, b | 0 <= a < b < |ids| ensures parse(ids[a]) != parse(ids[b]) {
      assert ids[a] in ids && ids[b] in ids;
    }
  }

  /** A pass leaves every request that it does not visit untouched. */
  lemma {:induction false} RefreshPassUntouched(cache: Cache, ids: seq<string>, parse: string -> seq<AddressInfo>,
                                                provider: Provider, format: int -> string, now: int, k: seq<AddressInfo>)
    requires forall i :: 0 <= i < |ids| ==> parse(ids[i]) != k
    ensures Lookup(RefreshPass(cache, ids, parse, provider, format, now), k) == Lookup(cache, k)
    decreases |ids|
  {
    if ids != [] {
      RefreshPassUntouched(cache, ids[..|ids| - 1], parse, provider, format, now, k);
    }
  }

  /** Failure isolation: in one pass every request whose fetch succeeds gets its
      fresh response written, and every request whose fetch fails keeps its
      previous entry, whatever happened to the other requests. */
  lemma {:induction false} PassIsolation(cache: Cache, ids: seq<string>, parse: string -> seq<AddressInfo>,
                                         provider: Provider, format: int -> string, now: int, i: nat)
    requires DistinctKeys(ids, parse) && i < |ids|
    ensures Lookup(RefreshPass(cache, ids, parse, provider, format, now), parse(ids[i]))
         == RefreshedEntry(cache, parse(ids[i]), provider, format, now)
    decreases |ids|
  {
    var n := |ids| - 1;
    var init := ids[..n];
    var before := RefreshPass(cache, init, parse, provider, format, now);
    var k := parse(ids[i]);
    assert RefreshPass(cache, ids, parse, provider, format, now) == Refreshed(before, parse(ids[n]), provider, format, now);
    if i == n {
      RefreshPassUntouched(cache, init, parse, provider, format, now, k);
      RefreshedEntryLocal(before, cache, k, provider, format, now);
    } else {
      assert DistinctKeys(init, parse) by {
        forall a, b | 0 <= a < b < |init| ensures parse(init[a]) != parse(init[b]) {
          assert init[a] == ids[a] && init[b] == ids[b];
        }
      }
      assert init[i] == ids[i];
      PassIsolation(cache, init, parse, provider, format, now, i);
      assert parse(ids[n]) != k;
    }
  }

  /** A listener turn's entry depends on the old cache only through the old entry. */
  lemma RefreshedEntryLocal(c1: Cache, c2: Cache, k: seq<AddressInfo>, provider: Provider, format: int -> string, now: int)
    requires Lookup(c1, k) == Lookup(c2, k)
    ensures RefreshedEntry(c1, k, provider, format, now) == RefreshedEntry(c2, k, provider, format, now)
  {
  }

  lemma PassIsolationAll(cache: Cache, ids: seq<string>, parse: string -> seq<AddressInfo>,
                         provider: Provider, format: int -> string, now: int)
    requires DistinctKeys(ids, parse)
    ensures forall i :: 0 <= i < |ids| ==>
      Lookup(RefreshPass(cache, ids, parse, provider, format, now), parse(ids[i]))
        == RefreshedEntry(cache, parse(ids[i]), provider, format, now)
  {
    forall i | 0 <= i < |ids|
      ensures Lookup(RefreshPass(cache, ids, parse, provider, format, now), parse(ids[i]))
           == RefreshedEntry(cache, parse(ids[i]), provider, format, now)
    {
      PassIsolation(cache, ids, parse, provider, format, now, i);
    }
  }

  /** The foreground path: a cached response is returned as it is; on a miss the
      response is fetched, written and returned; a failed fetch is a 502. */
  function Foreground(cache: Cache, addresses: seq<AddressInfo>, provider: Provider, format: int -> string, now: int)
    : (out: (Result<BalanceResponse, AdapterError>, Cache))
    ensures addresses in cache ==> out == (Success(cache[addresses]), cache)
    ensures out.0.Success? ==> addresses in out.1 && out.1[addresses] == out.0.value
    ensures out.0.Failure? ==> out.1 == cache && out.0.error.statusCode == 502
  {
    if addresses in cache then (Success(cache[addresses]), cache)
    else match GetBalances(addresses, provider, format)
      case Success(b) =>
        var response := MakeResponse(b.balances, b.results, format, now);
        (Success(response), cache[addresses := response])
      case Failure(m) =>
        (Failure(AdapterError(502, "Error fetching balances: " + m)), cache)
  }

  /** On a miss the foreground path writes exactly what a listener turn writes. */
  lemma ForegroundMissRefreshes(cache: Cache, addresses: seq<AddressInfo>, provider: Provider, format: int -> string, now: int)
    requires addresses !in cache
    ensures Foreground(cache, addresses, provider, format, now).1 == Refreshed(cache, addresses, provider, format, now)
    ensures Foreground(cache, addresses, provider, format, now).0.Success?
        <==> GetBalances(addresses, provider, format).Success?
  {
  }

  /** Once the foreground path has answered a request, asking again is a hit:
      the same response comes back whatever the node now says, and nothing is written. */
  lemma ForegroundReadsItsWrite(cache: Cache, addresses: seq<AddressInfo>, provider: Provider, later: Provider,
                                format: int -> string, now: int, laterNow: int)
    requires Foreground(cache, addresses, provider, format, now).0.Success?
    ensures var (r, c) := Foreground(cache, addresses, provider, format, now);
      Foreground(c, addresses, later, format, laterNow) == (r, c)
  {
  }

  /** The balance transport.  `stringify` and `parse` stand for `JSON.stringify`
      and `JSON.parse` on address lists, `format` for `formatAmount`; the
      response cache is the map `cache`. */
  class BalanceTransport {
    const stringify: seq<AddressInfo> -> string
    const parse: string -> seq<AddressInfo>
    const format: int -> string
    const currentRequests: LimitedCapacitySet
    var listenerInstalled: bool
    /** How many times the listener has been registered with `provider.on`. */
    ghost var installs: nat
    var cache: Cache

    /** What the model needs of the JSON functions: parsing undoes
        stringifying, and the text of an array is never empty. */
    ghost predicate Codec() {
      && (forall a :: parse(stringify(a)) == a)
      && (forall a :: stringify(a) != "")
    }

    ghost predicate Valid()
      reads this, currentRequests
    {
      && Codec()
      && currentRequests.Valid()
      && currentRequests.capacity == RequestCapacity
      && !currentRequests.Has("")
      && (forall id :: id in currentRequests.itemSet ==> stringify(parse(id)) == id)
      && installs == (if listenerInstalled then 1 else 0)
    }

    constructor (stringify: seq<AddressInfo> -> string, parse: string -> seq<AddressInfo>, format: int -> string)
      requires (forall a :: parse(stringify(a)) == a) && (forall a :: stringify(a) != "")
      ensures Valid() && fresh(currentRequests)
      ensures currentRequests.State() == FifoSet.Empty(RequestCapacity)
      ensures !listenerInstalled && installs == 0 && cache == map[]
      ensures this.stringify == stringify && this.parse == parse && this.format == format
    {
      this.stringify := stringify;
      this.parse := parse;
      this.format := format;
      currentRequests := new LimitedCapacitySet(RequestCapacity);
      listenerInstalled := false;
      installs := 0;
      cache := map[];
    }

    /** `getRequestId`: the fingerprint of an address list; it is never empty
        and it reads back as the list. */
    function GetRequestId(addresses: seq<AddressInfo>): (id: string)
      requires Codec()
      ensures parse(id) == addresses && id != ""
    {
      stringify(addresses)
    }

    method RegisterRequest(addresses: seq<AddressInfo>)
      requires Valid()
      modifies currentRequests
      ensures Valid()
      ensures currentRequests.State() == FifoSet.Added(old(currentRequests.State()), GetRequestId(addresses))
      ensures currentRequests.Has(GetRequestId(addresses))
    {
      var requestId := GetRequestId(addresses);
      FifoSet.AddedValid(currentRequests.State(), requestId);
      currentRequests.Add(requestId);
    }

    /** Installs the block listener once; later calls return before
        registering it again, so it is registered exactly once. */
    method BackgroundExecute()
      requires Valid()
      modifies this`listenerInstalled, this`installs
      ensures Valid() && listenerInstalled && installs == 1
      ensures installs == if old(listenerInstalled) then old(installs) else old(installs) + 1
    {
      if listenerInstalled {
        return;
      }
      listenerInstalled := true;
      installs := installs + 1;  // `provider.on("block", listener)`
    }

    /** The block listener: one pass over the live fingerprints, in the set's
        order, refreshing each one; per-fingerprint failures are caught. */
    method OnBlock(provider: Provider, now: int)
      requires Valid() && listenerInstalled
      modifies this`cache
      ensures cache == RefreshPass(old(cache), currentRequests.Values(), parse, provider, format, now)
      ensures forall i :: 0 <= i < |currentRequests.Values()| ==>
        Lookup(cache, parse(currentRequests.Values()[i]))
          == RefreshedEntry(old(cache), parse(currentRequests.Values()[i]), provider, format, now)
    {
      var requestIds := currentRequests.Values();
      var i := 0;
      while i < |requestIds|
        invariant 0 <= i <= |requestIds|
        invariant cache == RefreshPass(old(cache), requestIds[..i], parse, provider, format, now)
      {
        var addresses := parse(requestIds[i]);
        RefreshRequest(addresses, provider, now);
        assert requestIds[..i + 1][..i] == requestIds[..i];
        i := i + 1;
      }
      assert requestIds[..i] == requestIds;
      DistinctIdsHaveDistinctKeys(requestIds, stringify, parse);
      PassIsolationAll(old(cache), requestIds, parse, provider, format, now);
    }

    /** The `try`/`catch` around one fingerprint in the listener. */
    method RefreshRequest(addresses: seq<AddressInfo>, provider: Provider, now: int)
      modifies this`cache
      ensures cache == Refreshed(old(cache), addresses, provider, format, now)
    {
      match GetBalances(addresses, provider, format) {
        case Success(b) =>
          var response := MakeResponse(b.balances, b.results, format, now);
          cache := cache[addresses := response];
        case Failure(_) =>
          // logged and skipped: the previous entry stays authoritative
      }
    }

    method ForegroundExecute(addresses: seq<AddressInfo>, provider: Provider, now: int)
      returns (r: Result<BalanceResponse, AdapterError>)
      modifies this`cache
      ensures (r, cache) == Foreground(old(cache), addresses, provider, format, now)
    {
      if addresses in cache {
        return Success(cache[addresses]);
      }
      match GetBalances(addresses, provider, format) {
        case Success(b) =>
          var response := MakeResponse(b.balances, b.results, format, now);
          cache := cache[addresses := response];
          return Success(response);
        case Failure(m) =>
          return Failure(AdapterError(502, "Error fetching balances: " + m));
      }
    }
  }
}
