/** The price transport: subscribe/unsubscribe message builders, the reverse
    mapping from Gemini symbol to request parameters, the last-subscribed
    parameters slot, and the handler of inbound frames. */
module TransportPrice {
  import opened Text
  import opened EndpointPrice

  /** One entry of a frame's `changes` list: [type, price, quantity]. */
  datatype Change = Change(changeType: string, price: string, quantity: string)

  /** An inbound frame; fields a frame does not carry read as empty. */
  datatype WsMessage = WsMessage(changes: seq<Change>, messageType: string, symbol: string, result: string, reason: string)

  /** `parseFloat(text)`, left uninterpreted. */
  datatype Price = ParseFloat(text: string)

  datatype PriceResponse =
    | ErrorResponse(statusCode: int, errorMessage: string)
    | SuccessResponse(statusCode: int, result: Price, dataResult: Price, providerIndicatedTimeUnixMs: int)

  /** One `{params, response}` entry handed to the response cache. */
  datatype TransportEntry = TransportEntry(params: PriceParams, response: PriceResponse)

  /** What the handler does with a frame: returns entries, returns nothing, or
      throws because the frame has no first change to read. */
  datatype HandlerOutcome = Emit(entries: seq<TransportEntry>) | NoEntries | Throws

  datatype Subscription = Subscription(name: string, symbols: seq<string>)

  /** An outbound control message, before `JSON.stringify`. */
  datatype ControlMessage = ControlMessage(kind: string, subscriptions: seq<Subscription>)

  /** The transport's state: the last-subscribed slot and the reverse mapping. */
  datatype RouterState = RouterState(latestParams: PriceParams, reverseMapping: map<string, PriceParams>)

  const InitialParams: PriceParams := PriceParams("", "")
  const TradeTag: string := "sell"

  /** The Gemini symbol of a pair: base and quote concatenated, upper-cased. */
  function Pair(p: PriceParams): (s: string)
    ensures s == ToUpper(p.base) + ToUpper(p.quote)
  {
    ToUpperConcat(p.base, p.quote);
    ToUpper(p.base + p.quote)
  }

  function L2(p: PriceParams): seq<Subscription> {
    [Subscription("l2", [Pair(p)])]
  }

  /** The state after `subscribeMessage(p)`: `p` is the latest parameters and
      its symbol maps back to it. */
  function Subscribed(st: RouterState, p: PriceParams): (r: RouterState)
    ensures r.latestParams == p
    ensures Pair(p) in r.reverseMapping && r.reverseMapping[Pair(p)] == p
    ensures forall s :: s != Pair(p) ==> (s in r.reverseMapping <==> s in st.reverseMapping)
    ensures forall s :: s != Pair(p) && s in st.reverseMapping ==> r.reverseMapping[s] == st.reverseMapping[s]
  {
    RouterState(p, st.reverseMapping[Pair(p) := p])
  }

  /** `unsubscribeMessage(p)`: the same `l2` subscription for the same single
      symbol as `subscribeMessage(p)`; it touches no state. */
  function UnsubscribeMessage(p: PriceParams): (m: ControlMessage)
    ensures m.kind == "unsubscribe"
    ensures |m.subscriptions| == 1 && m.subscriptions[0].name == "l2" && m.subscriptions[0].symbols == [Pair(p)]
  {
    ControlMessage("unsubscribe", L2(p))
  }

  predicate IsError(m: WsMessage) { m.result == "error" }

  predicate IsTrade(m: WsMessage) { |m.changes| > 0 && m.changes[0].changeType == TradeTag }

  /** The `message` handler.  An error frame is answered first, for the latest
      parameters; otherwise only a trade frame whose symbol maps back to
      parameters is answered, for those parameters. */
  function HandleMessage(st: RouterState, m: WsMessage, now: int): (r: HandlerOutcome)
    ensures r.Emit? <==> IsError(m) || (IsTrade(m) && m.symbol in st.reverseMapping)
    ensures r.Emit? ==> |r.entries| == 1
    ensures r.Throws? <==> !IsError(m) && m.changes == []
    ensures r.Emit? ==> r.entries[0].params == st.latestParams || r.entries[0].params in st.reverseMapping.Values
    ensures r.Emit? ==> (r.entries[0].response.statusCode == 502 <==> IsError(m))
  {
    if m.result == "error" then
      Emit([TransportEntry(st.latestParams, ErrorResponse(502, m.reason))])
    else if |m.changes| == 0 then
      Throws  // `message.changes[0][0]` on an empty list
    else if m.changes[0].changeType != TradeTag then
      NoEntries
    else
      var price := ParseFloat(m.changes[0].price);
      if m.symbol !in st.reverseMapping then
        NoEntries
      else
        Emit([TransportEntry(st.reverseMapping[m.symbol], SuccessResponse(200, price, price, now))])
  }

  /** An error frame is never inspected for its changes or symbol: two error
      frames with the same reason get the same answer. */
  lemma ErrorTakesPrecedence(st: RouterState, m1: WsMessage, m2: WsMessage, now1: int, now2: int)
    requires IsError(m1) && IsError(m2) && m1.reason == m2.reason
    ensures HandleMessage(st, m1, now1) == HandleMessage(st, m2, now2)
    ensures HandleMessage(st, m1, now1) == Emit([TransportEntry(st.latestParams, ErrorResponse(502, m1.reason))])
  {
  }

  /** A frame whose first change is not a trade is dropped in every state. */
  lemma NonTradeDropped(st: RouterState, m: WsMessage, now: int)
    requires !IsError(m) && |m.changes| > 0 && m.changes[0].changeType != TradeTag
    ensures HandleMessage(st, m, now) == NoEntries
  {
  }

  /** Round trip: after subscribing `p`, a trade frame for `p`'s symbol is
      answered once, for `p`, with status 200 and the frame's price. */
  lemma SubscribeThenTrade(st: RouterState, p: PriceParams, m: WsMessage, now: int)
    requires !IsError(m) && IsTrade(m) && m.symbol == Pair(p)
    ensures HandleMessage(Subscribed(st, p), m, now)
      == Emit([TransportEntry(p, SuccessResponse(200, ParseFloat(m.changes[0].price), ParseFloat(m.changes[0].price), now))])
  {
  }

  /** After subscribing `p`, an error frame is attributed to `p`. */
  lemma SubscribeThenError(st: RouterState, p: PriceParams, m: WsMessage, now: int)
    requires IsError(m)
    ensures HandleMessage(Subscribed(st, p), m, now) == Emit([TransportEntry(p, ErrorResponse(502, m.reason))])
  {
  }

  /** Subscribing a second pair with another symbol keeps the first pair's
      trades routed to it, but error frames are now attributed to the second
      pair: the single slot mis-attributes errors of the first. */
  lemma SecondSubscription(st: RouterState, p: PriceParams, q: PriceParams, trade: WsMessage, err: WsMessage, now: int)
    requires Pair(p) != Pair(q)
    requires !IsError(trade) && IsTrade(trade) && trade.symbol == Pair(p)
    requires IsError(err)
    ensures var st2 := Subscribed(Subscribed(st, p), q);
      && HandleMessage(st2, trade, now) == HandleMessage(Subscribed(st, p), trade, now)
      && HandleMessage(st2, err, now) == Emit([TransportEntry(q, ErrorResponse(502, err.reason))])
  {
    SubscribeThenTrade(st, p, trade, now);
  }

  /** Before any subscription an error frame goes to the empty parameters, and
      no trade frame can be routed. */
  lemma BeforeAnySubscription(m: WsMessage, now: int)
    ensures IsError(m) ==>
      HandleMessage(RouterState(InitialParams, map[]), m, now)
        == Emit([TransportEntry(PriceParams("", ""), ErrorResponse(502, m.reason))])
    ensures !IsError(m) ==> !HandleMessage(RouterState(InitialParams, map[]), m, now).Emit?
  {
  }

  /** The integration test's pair: ETH/USD subscribes to "ETHUSD", and a trade
      frame for "ETHUSD" routes back to ETH/USD. */
  lemma EthUsdRoundTrip(m: WsMessage, now: int)
    requires !IsError(m) && IsTrade(m) && m.symbol == "ETHUSD"
    ensures Pair(PriceParams("ETH", "USD")) == "ETHUSD"
    ensures var st := Subscribed(RouterState(InitialParams, map[]), PriceParams("ETH", "USD"));
      HandleMessage(st, m, now).Emit? && HandleMessage(st, m, now).entries[0].params == PriceParams("ETH", "USD")
  {
    assert ToUpper("ETH") == "ETH";
    assert ToUpper("USD") == "USD";
  }

  /** Symbols ignore letter case, so "eth"/"usd" and "ETH"/"USD" share one
      mapping entry and the later subscription owns it. */
  lemma CaseVariantsShareSymbol(st: RouterState, m: WsMessage, now: int)
    requires !IsError(m) && IsTrade(m) && m.symbol == "ETHUSD"
    ensures var st2 := Subscribed(Subscribed(st, PriceParams("ETH", "USD")), PriceParams("eth", "usd"));
      HandleMessage(st2, m, now).Emit? && HandleMessage(st2, m, now).entries[0].params == PriceParams("eth", "usd")
  {
    assert ToUpper("ETH") == "ETH" && ToUpper("eth") == "ETH";
    assert ToUpper("USD") == "USD" && ToUpper("usd") == "USD";
    assert Pair(PriceParams("eth", "usd")) == "ETHUSD";
  }

  /** An unknown pair such as BTC1/USD: the provider answers the subscription
      with an error frame that carries no changes at all, and the handler answers
      it with a 502 for the pair just subscribed instead of failing on the
      missing changes. */
  lemma UnknownPairAnsweredWithError(st: RouterState, now: int)
    ensures var err := WsMessage([], "", "", "error", "NoValidTradingPairs");
      HandleMessage(Subscribed(st, PriceParams("BTC1", "USD")), err, now)
        == Emit([TransportEntry(PriceParams("BTC1", "USD"), ErrorResponse(502, "NoValidTradingPairs"))])
  {
  }

  /** The push transport's owned state. */
  class WsTransport {
    var latestParams: PriceParams
    var reverseMapping: map<string, PriceParams>

    function State(): RouterState
      reads this
    {
      RouterState(latestParams, reverseMapping)
    }

    constructor ()
      ensures State() == RouterState(InitialParams, map[])
    {
      latestParams := InitialParams;
      reverseMapping := map[];
    }

    /** `subscribeMessage(p)`: records `p` as the latest parameters and maps its
        symbol back to it before the message goes out. */
    method SubscribeMessage(params: PriceParams) returns (msg: ControlMessage)
      modifies this
      ensures State() == Subscribed(old(State()), params)
      ensures msg.kind == "subscribe" && msg.subscriptions == UnsubscribeMessage(params).subscriptions
    {
      latestParams := params;
      var pair := Pair(params);
      reverseMapping := reverseMapping[pair := params];
      msg := ControlMessage("subscribe", L2(params));
    }

    /** The `message` handler applied to the transport's current state. */
    function Message(m: WsMessage, now: int): (r: HandlerOutcome)
      reads this
      ensures IsError(m) ==> r == Emit([TransportEntry(latestParams, ErrorResponse(502, m.reason))])
      ensures !IsError(m) && r.Emit? ==> IsTrade(m) && m.symbol in reverseMapping && r.entries == [TransportEntry(reverseMapping[m.symbol],
        SuccessResponse(200, ParseFloat(m.changes[0].price), ParseFloat(m.changes[0].price), now))]
    {
      HandleMessage(State(), m, now)
    }
  }
}
