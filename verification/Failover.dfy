/**
 Failover between crypto venues: `for_exchange`, `for_public_market`, `get_kline` and
 `get_ticker` of backend/app/data_sources/crypto.py, and `_resolve_source` of factory.py.
 What a venue replies is an arbitrary function of the venue, the question and the number of
 questions asked before.
 */
module Failover {
  import opened Basics
  import opened Bars
  import opened Text

  function PublicIds(): seq<string> {
    ["binance", "bitget", "bybit", "okx", "gate", "htx"]
  }

  function FallbackIds(): seq<string> {
    ["bitget", "okx", "gate", "htx", "bybit", "binance"]
  }

  datatype Venue = Venue(ccxtId: string, market: string)

  datatype Question = Kline(symbol: string, timeframe: string) | Ticker(symbol: string)

  /** `Barred`: the symbol is on the venue's list of invalid symbols and nothing is sent. */
  datatype Reply = Nothing | Barred | Rows(rows: seq<Bar>) | Quote(last: int)

  /** A ticker for a blank symbol is no quote, and nobody is asked. */
  predicate Blank(q: Question) {
    q.Ticker? && Strip(q.symbol) == ""
  }

  datatype Asked = Asked(venue: Venue, question: Question)

  type World = (Venue, Question, nat) -> Reply

  datatype Source = Source(allowFallback: bool, ccxtId: string, market: string, preferred: string)

  function Own(s: Source): Venue {
    Venue(s.ccxtId, s.market)
  }

  // ---------------------------------------------------------------- which source

  function CanonicalId(id: string, default: string): string {
    var e := if id == "" then default else id;
    if e == "huobi" then "htx" else e
  }

  /** The client of a listed exchange: Binance futures have their own. */
  function ClientId(id: string, market: string): string {
    if id == "binance" && market == "swap" then "binanceusdm" else id
  }

  function CanonicalMarket(market: string): string {
    if market in ["futures", "future", "perp", "perpetual"] then "swap" else market
  }

  /**
   `for_exchange`; None is the ValueError for an unknown exchange. Without a market type the
   client is that for spot, but the source takes its market to be swap.
   */
  function ForExchange(id: string, market: string, default: string): Option<Source> {
    var e := CanonicalId(id, default);
    var client := CanonicalMarket(if market == "" then "spot" else market);
    var mt := CanonicalMarket(if market == "" then "swap" else market);
    if e in PublicIds() then Some(Source(false, ClientId(e, client), mt, "")) else None
  }

  function ForPublicMarket(market: string, default: string): Source {
    var e := CanonicalId("", default);
    var mt := CanonicalMarket(if market == "" then "spot" else market);
    var known := if mt == "spot" || mt == "swap" then mt else "spot";
    var id := if e in PublicIds() then e else "binance";
    Source(true, ClientId(id, known), known, "")
  }

  function DefaultSource(default: string): Source {
    var e := CanonicalId("", default);
    Source(true, if e in PublicIds() then e else "binance", "spot", "")
  }

  datatype Resolved = Crypto(source: Source) | Unsupported | Other(market: string)

  /** `_resolve_source`, on arguments already stripped and in lower case. */
  function Resolve(market: string, ex: string, marketType: string, default: string): Resolved {
    var mt := CanonicalMarket(marketType);
    if market == "Crypto" && ex != "" then
      match ForExchange(ex, if mt == "" then "swap" else mt, default)
      case None => Unsupported
      case Some(s) => Resolved.Crypto(s)
    else if market == "Crypto" && mt == "swap" then Resolved.Crypto(ForPublicMarket("swap", default))
    else if market == "Crypto" then Resolved.Crypto(DefaultSource(default))
    else Other(market)
  }

  // ---------------------------------------------------------------- one call

  datatype Role = Preferred | Self | Fallback

  datatype Leg = Leg(role: Role, id: string)

  function LegVenue(s: Source, leg: Leg): Venue {
    if leg.role.Self? then Own(s) else Venue(ClientId(leg.id, s.market), s.market)
  }

  function FallbackLegs(ids: seq<string>, current: string): seq<Leg> {
    if ids == [] then []
    else (if ids[0] == current then [] else [Leg(Fallback, ids[0])]) + FallbackLegs(ids[1..], current)
  }

  predicate TriesPreferred(s: Source) {
    s.allowFallback && s.preferred != "" && s.preferred != s.ccxtId
  }

  /** The venues a call asks, in order, until one answers. */
  function Plan(s: Source): seq<Leg> {
    (if TriesPreferred(s) then [Leg(Preferred, s.preferred)] else [])
    + [Leg(Self, s.ccxtId)]
    + (if s.allowFallback then FallbackLegs(FallbackIds(), s.ccxtId) else [])
  }

  /** Bars must not be empty; another venue's quote must be positive, the own one only be there. */
  predicate Answers(q: Question, role: Role, r: Reply) {
    match q
    case Kline(_, _) => r.Rows? && r.rows != []
    case Ticker(_) => r.Quote? && (role.Self? || r.last > 0)
  }

  /** A barred symbol ends a ticker call on the spot; bars are still looked for elsewhere. */
  predicate Ends(q: Question, role: Role, r: Reply) {
    q.Ticker? && role.Self? && r.Barred?
  }

  /** How many legs of the plan are asked, and which one answers. */
  datatype Outcome = Outcome(asked: nat, answered: Option<nat>)

  function Walk(s: Source, q: Question, plan: seq<Leg>, world: World, n: nat): (o: Outcome)
    ensures o.asked <= |plan| && (o.answered.Some? ==> o.answered.value + 1 == o.asked)
  {
    if plan == [] then Outcome(0, None)
    else
      var r := world(LegVenue(s, plan[0]), q, n);
      if Answers(q, plan[0].role, r) then Outcome(1, Some(0))
      else if Ends(q, plan[0].role, r) then Outcome(1, None)
      else
        var rest := Walk(s, q, plan[1..], world, n + 1);
        Outcome(rest.asked + 1, if rest.answered.Some? then Some(rest.answered.value + 1) else None)
  }

  function Asks(s: Source, q: Question, legs: seq<Leg>): (asks: seq<Asked>)
    ensures |asks| == |legs|
  {
    if legs == [] then []
    else Asks(s, q, legs[..|legs| - 1]) + [Asked(LegVenue(s, legs[|legs| - 1]), q)]
  }

  /** The preferred venue after the call: the fallback that answered, or none once it has failed. */
  function NextPreferred(s: Source, o: Outcome): string
    requires o.answered.Some? ==> o.answered.value < |Plan(s)|
  {
    if o.answered.Some? && Plan(s)[o.answered.value].role.Fallback? then Plan(s)[o.answered.value].id
    else if o.answered.Some? && Plan(s)[o.answered.value].role.Preferred? then s.preferred
    else if TriesPreferred(s) then ""
    else s.preferred
  }

  function Called(s: Source, q: Question, world: World, n: nat): Outcome {
    Walk(s, q, Plan(s), world, n)
  }

  function AfterCall(s: Source, q: Question, world: World, n: nat): Source {
    s.(preferred := NextPreferred(s, Called(s, q, world, n)))
  }

  function AsksOfCall(s: Source, q: Question, world: World, n: nat): seq<Asked> {
    Asks(s, q, Plan(s)[..Called(s, q, world, n).asked])
  }

  /** The reply that the call passes on, if a venue answered. */
  function Passed(s: Source, q: Question, world: World, n: nat): Option<Reply> {
    var o := Called(s, q, world, n);
    if o.answered.Some? then Some(world(LegVenue(s, Plan(s)[o.answered.value]), q, n + o.answered.value)) else None
  }

  // ---------------------------------------------------------------- walking the plan

  function Shift(o: Outcome, k: nat): Outcome {
    Outcome(o.asked + k, if o.answered.Some? then Some(o.answered.value + k) else None)
  }

  /** The first `k` legs of the plan have been asked in vain, from the n-th question on. */
  ghost predicate Vain(s: Source, q: Question, world: World, n: nat, k: nat) {
    && k <= |Plan(s)|
    && Called(s, q, world, n) == Shift(Walk(s, q, Plan(s)[k..], world, n + k), k)
  }

  lemma {:induction false} VainStart(s: Source, q: Question, world: World, n: nat)
    ensures Vain(s, q, world, n, 0) && AsksOf(s, q, 0) == []
  {
    assert Plan(s)[0..] == Plan(s) && Plan(s)[..0] == [];
  }

  function AsksOf(s: Source, q: Question, k: nat): (asks: seq<Asked>)
    requires k <= |Plan(s)|
    ensures |asks| == k
  {
    Asks(s, q, Plan(s)[..k])
  }

  /** Ask the next leg of the plan. */
  lemma {:induction false} NextLeg(s: Source, q: Question, world: World, n: nat, k: nat)
    requires Vain(s, q, world, n, k) && k < |Plan(s)|
    ensures var (leg, r) := (Plan(s)[k], world(LegVenue(s, Plan(s)[k]), q, n + k));
      && AsksOf(s, q, k + 1) == AsksOf(s, q, k) + [Asked(LegVenue(s, leg), q)]
      && if Answers(q, leg.role, r) then Called(s, q, world, n) == Outcome(k + 1, Some(k))
         else if Ends(q, leg.role, r) then Called(s, q, world, n) == Outcome(k + 1, None)
         else Vain(s, q, world, n, k + 1)
  {
    var plan := Plan(s);
    hide Plan, LegVenue, Answers, Ends;
    assert plan[..k + 1][..k] == plan[..k];
    assert plan[k..][1..] == plan[k + 1..] && plan[k..][0] == plan[k];
  }

  /** The call ends with the answer of leg `k`. */
  lemma {:induction false} Answered(s: Source, q: Question, world: World, n: nat, k: nat)
    requires Vain(s, q, world, n, k) && k < |Plan(s)|
    requires Answers(q, Plan(s)[k].role, world(LegVenue(s, Plan(s)[k]), q, n + k))
    ensures AsksOfCall(s, q, world, n) == AsksOf(s, q, k) + [Asked(LegVenue(s, Plan(s)[k]), q)]
    ensures Passed(s, q, world, n) == Some(world(LegVenue(s, Plan(s)[k]), q, n + k))
    ensures AfterCall(s, q, world, n) == s.(preferred :=
              match Plan(s)[k].role
              case Fallback => Plan(s)[k].id
              case Preferred => s.preferred
              case Self => Given(s))
  {
    hide Plan, LegVenue, Answers, Ends;
    NextLeg(s, q, world, n, k);
  }

  /** The call ends without an answer. */
  lemma {:induction false} Unanswered(s: Source, q: Question, world: World, n: nat, k: nat)
    requires Vain(s, q, world, n, k)
    requires k < |Plan(s)| ==> Ends(q, Plan(s)[k].role, world(LegVenue(s, Plan(s)[k]), q, n + k))
    ensures AsksOfCall(s, q, world, n) == AsksOf(s, q, if k < |Plan(s)| then k + 1 else k)
    ensures Passed(s, q, world, n) == None && AfterCall(s, q, world, n) == s.(preferred := Given(s))
  {
    hide Plan, LegVenue;
    if k < |Plan(s)| {
      NextLeg(s, q, world, n, k);
    } else {
      assert Plan(s)[k..] == [];
    }
  }

  /** The preference once the preferred venue has been tried in vain. */
  function Given(s: Source): string {
    if TriesPreferred(s) then "" else s.preferred
  }

  /** The legs before the fallbacks. */
  function Front(s: Source): nat {
    if TriesPreferred(s) then 2 else 1
  }

  lemma {:induction false} PlanParts(s: Source)
    ensures Front(s) <= |Plan(s)| && Plan(s)[Front(s) - 1] == Leg(Self, s.ccxtId)
    ensures TriesPreferred(s) ==> Plan(s)[0] == Leg(Preferred, s.preferred)
    ensures Plan(s)[Front(s)..] == if s.allowFallback then FallbackLegs(FallbackIds(), s.ccxtId) else []
  {
  }

  /** Sources start without a preference and keep to the listed venues; failover is for spot and swap. */
  predicate Proper(s: Source) {
    && (s.preferred != "" ==> s.allowFallback && s.preferred in FallbackIds())
    && (s.allowFallback ==> s.market == "spot" || s.market == "swap")
  }

  /** Every listed id makes a scoped source for the asked venue. */
  lemma {:induction false} ListedVenue(s: Source, leg: Leg)
    requires Proper(s) && s.allowFallback && !leg.role.Self? && leg.id in FallbackIds()
    ensures var other := ForExchange(leg.id, s.market, "");
      other.Some? && !other.value.allowFallback && Own(other.value) == LegVenue(s, leg) && other.value.preferred == ""
  {
    assert leg.id[0] != 'h' || leg.id[1] != 'u';
    assert s.market[0] == 's';
  }

  lemma {:induction false} WalkScoped(s: Source, q: Question, world: World, n: nat)
    requires !s.allowFallback
    ensures var r := world(Own(s), q, n);
      && Plan(s) == [Leg(Self, s.ccxtId)]
      && Called(s, q, world, n) == Outcome(1, if Answers(q, Self, r) then Some(0) else None)
      && AsksOfCall(s, q, world, n) == [Asked(Own(s), q)]
      && AfterCall(s, q, world, n) == s
  {
    var plan := Plan(s);
    assert plan == [Leg(Self, s.ccxtId)] && plan[1..] == [];
    assert Walk(s, q, plan[1..], world, n + 1) == Outcome(0, None);
    assert plan[..1] == plan && plan[..0] == [];
    assert Asks(s, q, plan[..0]) == [];
  }

  lemma {:induction false} PreferredListed(s: Source)
    requires Proper(s) && TriesPreferred(s)
    ensures s.preferred in FallbackIds() && |Plan(s)| >= 1 && Plan(s)[0] == Leg(Preferred, s.preferred)
  {
  }

  lemma {:induction false} OwnLeg(s: Source)
    ensures Front(s) <= |Plan(s)| && Plan(s)[Front(s) - 1].role == Self && LegVenue(s, Plan(s)[Front(s) - 1]) == Own(s)
    ensures !s.allowFallback ==> |Plan(s)| == Front(s)
  {
    PlanParts(s);
  }

  /** The fallback loop skips the current id and otherwise asks the next leg of the plan. */
  lemma {:induction false} NextFallback(s: Source, k: nat, i: nat)
    requires i < |FallbackIds()| && k <= |Plan(s)| && Plan(s)[k..] == FallbackLegs(FallbackIds()[i..], s.ccxtId)
    ensures FallbackIds()[i] == s.ccxtId ==> Plan(s)[k..] == FallbackLegs(FallbackIds()[i + 1..], s.ccxtId)
    ensures FallbackIds()[i] != s.ccxtId ==>
              k < |Plan(s)| && Plan(s)[k] == Leg(Fallback, FallbackIds()[i])
              && Plan(s)[k + 1..] == FallbackLegs(FallbackIds()[i + 1..], s.ccxtId)
  {
    assert FallbackIds()[i..][1..] == FallbackIds()[i + 1..];
    if FallbackIds()[i] != s.ccxtId {
      assert Plan(s)[k..][0] == Plan(s)[k] && Plan(s)[k..][1..] == Plan(s)[k + 1..];
    }
  }

  lemma {:induction false} NoMoreFallbacks(s: Source, k: nat)
    requires k <= |Plan(s)| && Plan(s)[k..] == FallbackLegs(FallbackIds()[|FallbackIds()|..], s.ccxtId)
    ensures k == |Plan(s)|
  {
    assert FallbackIds()[|FallbackIds()|..] == [];
  }

  lemma {:induction false} ProperAnyway(s: Source)
    requires Proper(s)
    ensures Proper(s.(preferred := Given(s))) && LegVenuesAgree(s, s.(preferred := Given(s)))
  {
  }

  ghost predicate LegVenuesAgree(s: Source, t: Source) {
    forall leg :: LegVenue(s, leg) == LegVenue(t, leg)
  }

  function RowsOf(r: Option<Reply>): seq<Bar> {
    if r.Some? && r.value.Rows? then r.value.rows else []
  }

  function LastOf(r: Option<Reply>): int {
    if r.Some? && r.value.Quote? then r.value.last else 0
  }

  class CryptoSource {
    const allowFallback: bool
    const ccxtId: string
    const market: string
    var preferred: string

    function Value(): Source
      reads this
    {
      Source(allowFallback, ccxtId, market, preferred)
    }

    constructor (s: Source)
      ensures Value() == s
    {
      allowFallback, ccxtId, market, preferred := s.allowFallback, s.ccxtId, s.market, s.preferred;
    }

    /** Bars from the preferred venue, then the own one, then the fallbacks in their order. */
    method GetKline(q: Question, world: World, start: seq<Asked>) returns (rows: seq<Bar>, log: seq<Asked>)
      requires q.Kline? && Proper(Value())
      modifies this
      ensures Value() == AfterCall(old(Value()), q, world, |start|)
      ensures log == start + AsksOfCall(old(Value()), q, world, |start|)
      ensures rows == RowsOf(Passed(old(Value()), q, world, |start|))
      decreases allowFallback
    {
      hide Called, Walk, Plan, AsksOf, AsksOfCall, AfterCall, Passed, NextPreferred, Vain, Proper, LegVenue;
      hide FallbackLegs, FallbackIds;
      ghost var was, n := Value(), |start|;
      ghost var k: nat := 0;
      log := start;
      VainStart(was, q, world, n);
      PlanParts(was);
      if allowFallback && preferred != "" && preferred != ccxtId {
        PreferredListed(was);
        NextLeg(was, q, world, n, 0);
        rows, log := AskBars(q, world, log, Leg(Preferred, preferred));
        if rows != [] {
          Answered(was, q, world, n, 0);
          return;
        }
        k := 1;
        preferred := "";
      }
      NextLeg(was, q, world, n, k);
      OwnLeg(was);
      var reply := world(Venue(ccxtId, market), q, |log|);
      log := log + [Asked(Venue(ccxtId, market), q)];
      rows := if reply.Rows? then reply.rows else [];
      if rows != [] {
        Answered(was, q, world, n, k);
        return;
      }
      k := k + 1;
      if !allowFallback {
        Unanswered(was, q, world, n, k);
        return [], log;
      }
      PlanParts(was);
      rows, log := KlineFallback(q, world, log, was, start, k);
    }

    /** The loop of `get_kline` over the other public venues. */
    method KlineFallback(q: Question, world: World, sofar: seq<Asked>, ghost was: Source, ghost before: seq<Asked>,
            ghost start: nat)
      returns (rows: seq<Bar>, log: seq<Asked>)
      requires q.Kline? && allowFallback && Proper(was) && Value() == was.(preferred := Given(was))
      requires start <= |Plan(was)| && Vain(was, q, world, |before|, start) && sofar == before + AsksOf(was, q, start)
      requires Plan(was)[start..] == FallbackLegs(FallbackIds(), ccxtId)
      modifies this
      ensures Value() == AfterCall(was, q, world, |before|)
      ensures log == before + AsksOfCall(was, q, world, |before|)
      ensures rows == RowsOf(Passed(was, q, world, |before|))
      decreases allowFallback, 1
    {
      hide Called, Walk, Plan, AsksOf, AsksOfCall, AfterCall, Passed, NextPreferred, Vain, Proper, LegVenue;
      hide FallbackLegs, FallbackIds;
      ghost var n: nat, k: nat := |before|, start;
      log := sofar;
      assert FallbackIds()[0..] == FallbackIds();
      ProperAnyway(was);
      for i := 0 to |FallbackIds()|
        invariant Value() == was.(preferred := Given(was))
        invariant k <= |Plan(was)| && Vain(was, q, world, n, k)
        invariant Plan(was)[k..] == FallbackLegs(FallbackIds()[i..], ccxtId)
        invariant log == before + AsksOf(was, q, k)
      {
        var id := FallbackIds()[i];
        NextFallback(was, k, i);
        if id != ccxtId {
          NextLeg(was, q, world, n, k);
          var got;
          got, log := AskBars(q, world, log, Leg(Fallback, id));
          if got != [] {
            Answered(was, q, world, n, k);
            preferred := id;
            return got, log;
          }
          k := k + 1;
        }
      }
      NoMoreFallbacks(was, k);
      Unanswered(was, q, world, n, k);
      rows := [];
    }

    /** `get_kline` on the source scoped to another venue. */
    method AskBars(q: Question, world: World, start: seq<Asked>, leg: Leg) returns (rows: seq<Bar>, log: seq<Asked>)
      requires q.Kline? && allowFallback && Proper(Value()) && !leg.role.Self? && leg.id in FallbackIds()
      ensures log == start + [Asked(LegVenue(Value(), leg), q)]
      ensures rows == RowsOf(Some(world(LegVenue(Value(), leg), q, |start|)))
      decreases allowFallback, 0
    {
      ListedVenue(Value(), leg);
      var scoped := ForExchange(leg.id, market, "").value;
      WalkScoped(scoped, q, world, |start|);
      var other := new CryptoSource(scoped);
      rows, log := other.GetKline(q, world, start);
    }

    /** A quote from the preferred venue, then the own one, then the fallbacks in their order; 0 is no quote. */
    method GetTicker(q: Question, world: World, start: seq<Asked>) returns (last: int, log: seq<Asked>)
      requires q.Ticker? && Proper(Value())
      modifies this
      ensures Blank(q) ==> Value() == old(Value()) && log == start && last == 0
      ensures !Blank(q) ==>
                && Value() == AfterCall(old(Value()), q, world, |start|)
                && log == start + AsksOfCall(old(Value()), q, world, |start|)
                && last == LastOf(Passed(old(Value()), q, world, |start|))
      decreases allowFallback
    {
      hide Called, Walk, Plan, AsksOf, AsksOfCall, AfterCall, Passed, NextPreferred, Vain, Proper, LegVenue;
      hide FallbackLegs, FallbackIds;
      ghost var was, n := Value(), |start|;
      ghost var k: nat := 0;
      log := start;
      if Strip(q.symbol) == "" {
        return 0, log;
      }
      VainStart(was, q, world, n);
      PlanParts(was);
      if allowFallback && preferred != "" && preferred != ccxtId {
        PreferredListed(was);
        NextLeg(was, q, world, n, 0);
        last, log := AskQuote(q, world, log, Leg(Preferred, preferred));
        if last > 0 {
          Answered(was, q, world, n, 0);
          return;
        }
        k := 1;
        preferred := "";
      }
      NextLeg(was, q, world, n, k);
      OwnLeg(was);
      var reply := world(Venue(ccxtId, market), q, |log|);
      log := log + [Asked(Venue(ccxtId, market), q)];
      if reply.Barred? {
        Unanswered(was, q, world, n, k);
        return 0, log;
      }
      if reply.Quote? {
        Answered(was, q, world, n, k);
        return reply.last, log;
      }
      k := k + 1;
      if !allowFallback {
        Unanswered(was, q, world, n, k);
        return 0, log;
      }
      PlanParts(was);
      last, log := TickerFallback(q, world, log, was, start, k);
    }

    /** The loop of `get_ticker` over the other public venues. */
    method TickerFallback(q: Question, world: World, sofar: seq<Asked>, ghost was: Source, ghost before: seq<Asked>,
            ghost start: nat)
      returns (last: int, log: seq<Asked>)
      requires q.Ticker? && !Blank(q) && allowFallback && Proper(was) && Value() == was.(preferred := Given(was))
      requires start <= |Plan(was)| && Vain(was, q, world, |before|, start) && sofar == before + AsksOf(was, q, start)
      requires Plan(was)[start..] == FallbackLegs(FallbackIds(), ccxtId)
      modifies this
      ensures Value() == AfterCall(was, q, world, |before|)
      ensures log == before + AsksOfCall(was, q, world, |before|)
      ensures last == LastOf(Passed(was, q, world, |before|))
      decreases allowFallback, 1
    {
      hide Called, Walk, Plan, AsksOf, AsksOfCall, AfterCall, Passed, NextPreferred, Vain, Proper, LegVenue;
      hide FallbackLegs, FallbackIds;
      ghost var n: nat, k: nat := |before|, start;
      log := sofar;
      assert FallbackIds()[0..] == FallbackIds();
      ProperAnyway(was);
      for i := 0 to |FallbackIds()|
        invariant Value() == was.(preferred := Given(was))
        invariant k <= |Plan(was)| && Vain(was, q, world, n, k)
        invariant Plan(was)[k..] == FallbackLegs(FallbackIds()[i..], ccxtId)
        invariant log == before + AsksOf(was, q, k)
      {
        var id := FallbackIds()[i];
        NextFallback(was, k, i);
        if id != ccxtId {
          NextLeg(was, q, world, n, k);
          var got;
          got, log := AskQuote(q, world, log, Leg(Fallback, id));
          if got > 0 {
            Answered(was, q, world, n, k);
            preferred := id;
            return got, log;
          }
          k := k + 1;
        }
      }
      NoMoreFallbacks(was, k);
      Unanswered(was, q, world, n, k);
      last := 0;
    }

    /** `get_ticker` on the source scoped to another venue. */
    method AskQuote(q: Question, world: World, start: seq<Asked>, leg: Leg) returns (last: int, log: seq<Asked>)
      requires q.Ticker? && !Blank(q) && allowFallback && Proper(Value()) && !leg.role.Self? && leg.id in FallbackIds()
      ensures log == start + [Asked(LegVenue(Value(), leg), q)]
      ensures last == LastOf(Some(world(LegVenue(Value(), leg), q, |start|)))
      decreases allowFallback, 0
    {
      ListedVenue(Value(), leg);
      var scoped := ForExchange(leg.id, market, "").value;
      WalkScoped(scoped, q, world, |start|);
      var other := new CryptoSource(scoped);
      last, log := other.GetTicker(q, world, start);
    }
  }

  // ---------------------------------------------------------------- what a call promises

  /** Every leg that is asked and does not end the walk gives no answer and no reason to end. */
  lemma {:induction false} WalkSkips(s: Source, q: Question, plan: seq<Leg>, world: World, n: nat, i: nat)
    requires i < Walk(s, q, plan, world, n).asked && Walk(s, q, plan, world, n).answered != Some(i)
    ensures !Answers(q, plan[i].role, world(LegVenue(s, plan[i]), q, n + i))
    ensures i + 1 < Walk(s, q, plan, world, n).asked ==> !Ends(q, plan[i].role, world(LegVenue(s, plan[i]), q, n + i))
  {
    var r := world(LegVenue(s, plan[0]), q, n);
    hide LegVenue;
    if i > 0 {
      WalkSkips(s, q, plan[1..], world, n + 1, i - 1);
      assert plan[1..][i - 1] == plan[i] && n + 1 + (i - 1) == n + i;
      hide Answers, Ends;
    }
  }

  /** The walk ends with an answer, with a barred symbol or with the plan. */
  lemma {:induction false} WalkEnds(s: Source, q: Question, plan: seq<Leg>, world: World, n: nat)
    requires plan != []
    ensures var o := Walk(s, q, plan, world, n);
      && 1 <= o.asked
      && var (leg, r) := (plan[o.asked - 1], world(LegVenue(s, plan[o.asked - 1]), q, n + o.asked - 1));
      && (o.answered.Some? ==> Answers(q, leg.role, r))
      && (o.answered.None? && o.asked < |plan| ==> Ends(q, leg.role, r))
  {
    var r, rest := world(LegVenue(s, plan[0]), q, n), plan[1..];
    if !Answers(q, plan[0].role, r) && !Ends(q, plan[0].role, r) && rest != [] {
      WalkEnds(s, q, rest, world, n + 1);
      var o := Walk(s, q, rest, world, n + 1);
      assert rest[o.asked - 1] == plan[o.asked] && n + 1 + o.asked - 1 == n + o.asked;
      hide Answers, Ends, LegVenue;
    }
  }

  function ReplyAt(s: Source, q: Question, world: World, n: nat, i: nat): Reply
    requires i < |Plan(s)|
  {
    world(LegVenue(s, Plan(s)[i]), q, n + i)
  }

  /** How a call ends. */
  lemma {:induction false} CallEnds(s: Source, q: Question, world: World, n: nat)
    ensures var (o, asks) := (Called(s, q, world, n), AsksOfCall(s, q, world, n));
      && 1 <= o.asked == |asks| <= |Plan(s)|
      && (o.answered.Some? ==>
            && o.answered.value + 1 == o.asked
            && Answers(q, Plan(s)[o.asked - 1].role, ReplyAt(s, q, world, n, o.asked - 1))
            && Passed(s, q, world, n) == Some(ReplyAt(s, q, world, n, o.asked - 1)))
      && (o.answered.None? ==>
            && Passed(s, q, world, n) == None
            && (o.asked < |Plan(s)| ==> Ends(q, Plan(s)[o.asked - 1].role, ReplyAt(s, q, world, n, o.asked - 1))))
  {
    hide Plan, Walk, Answers, Ends, LegVenue, Asks;
    PlanNotEmpty(s);
    WalkEnds(s, q, Plan(s), world, n);
  }

  lemma {:induction false} PlanNotEmpty(s: Source)
    ensures Plan(s) != []
  {
    PlanParts(s);
  }

  /** What a call asks, and that nothing asked before its end answers. */
  lemma {:induction false} CallAsks(s: Source, q: Question, world: World, n: nat, i: nat)
    requires i < Called(s, q, world, n).asked
    ensures i < |AsksOfCall(s, q, world, n)| && AsksOfCall(s, q, world, n)[i] == Asked(LegVenue(s, Plan(s)[i]), q)
    ensures Called(s, q, world, n).answered != Some(i) ==> !Answers(q, Plan(s)[i].role, ReplyAt(s, q, world, n, i))
    ensures i + 1 < Called(s, q, world, n).asked ==> !Ends(q, Plan(s)[i].role, ReplyAt(s, q, world, n, i))
  {
    hide Plan, Walk, Answers, Ends, LegVenue, Asks;
    AskAt(s, q, Plan(s)[..Called(s, q, world, n).asked], i);
    if Called(s, q, world, n).answered != Some(i) {
      WalkSkips(s, q, Plan(s), world, n, i);
    }
  }

  /** A call asks the legs of its plan in order and stops at the first answer. */
  lemma {:induction false} CallMeans(s: Source, q: Question, world: World, n: nat)
    ensures var (o, asks) := (Called(s, q, world, n), AsksOfCall(s, q, world, n));
      && 1 <= o.asked == |asks| <= |Plan(s)|
      && (o.answered.Some? ==>
            && o.answered.value + 1 == o.asked
            && Answers(q, Plan(s)[o.asked - 1].role, ReplyAt(s, q, world, n, o.asked - 1))
            && Passed(s, q, world, n) == Some(ReplyAt(s, q, world, n, o.asked - 1)))
      && (o.answered.None? ==>
            && Passed(s, q, world, n) == None
            && (o.asked < |Plan(s)| ==> Ends(q, Plan(s)[o.asked - 1].role, ReplyAt(s, q, world, n, o.asked - 1))))
      && (forall i :: 0 <= i < o.asked ==>
            && asks[i] == Asked(LegVenue(s, Plan(s)[i]), q)
            && (o.answered != Some(i) ==> !Answers(q, Plan(s)[i].role, ReplyAt(s, q, world, n, i)))
            && (i + 1 < o.asked ==> !Ends(q, Plan(s)[i].role, ReplyAt(s, q, world, n, i))))
  {
    CallEnds(s, q, world, n);
    hide Plan, Called, AsksOfCall, Passed, Answers, Ends, LegVenue, ReplyAt;
    forall i: nat | i < Called(s, q, world, n).asked
      ensures AsksOfCall(s, q, world, n)[i] == Asked(LegVenue(s, Plan(s)[i]), q)
      ensures Called(s, q, world, n).answered != Some(i) ==> !Answers(q, Plan(s)[i].role, ReplyAt(s, q, world, n, i))
      ensures i + 1 < Called(s, q, world, n).asked ==> !Ends(q, Plan(s)[i].role, ReplyAt(s, q, world, n, i))
    {
      CallAsks(s, q, world, n, i);
    }
  }

  lemma {:induction false} AskAt(s: Source, q: Question, legs: seq<Leg>, i: nat)
    requires i < |legs|
    ensures Asks(s, q, legs)[i] == Asked(LegVenue(s, legs[i]), q)
  {
    if i < |legs| - 1 {
      AskAt(s, q, legs[..|legs| - 1], i);
    }
  }

  lemma {:induction false} FallbacksListed(ids: seq<string>, current: string)
    ensures |FallbackLegs(ids, current)| <= |ids|
    ensures forall leg :: leg in FallbackLegs(ids, current) <==>
                            leg.role == Fallback && leg.id in ids && leg.id != current
  {
    if ids != [] {
      FallbacksListed(ids[1..], current);
      assert ids == [ids[0]] + ids[1..];
    }
  }

  /** The ids a plan asks: the own venue and, for an unscoped source, every other listed venue. */
  lemma {:induction false} PlanCovers(s: Source, id: string)
    requires s.allowFallback && id in FallbackIds() && id != s.ccxtId
    ensures exists i :: Front(s) <= i < |Plan(s)| && Plan(s)[i] == Leg(Fallback, id)
  {
    PlanParts(s);
    FallbacksListed(FallbackIds(), s.ccxtId);
    hide Plan, FallbackIds, FallbackLegs;
    var tail := Plan(s)[Front(s)..];
    assert Leg(Fallback, id) in tail;
    var j: nat :| j < |tail| && tail[j] == Leg(Fallback, id);
    assert Plan(s)[Front(s) + j] == Leg(Fallback, id);
  }

  /** Bounds on one call: at most eight questions, the last to the venue that answered. */
  lemma {:induction false} CallIsBounded(s: Source, q: Question, world: World, n: nat)
    ensures 1 <= |AsksOfCall(s, q, world, n)| <= if s.allowFallback then 8 else 1
  {
    PlanParts(s);
    FallbacksListed(FallbackIds(), s.ccxtId);
    assert |FallbackIds()| == 6;
    assert |Plan(s)| == Front(s) + |Plan(s)[Front(s)..]|;
    hide Plan, FallbackIds, FallbackLegs;
  }

  /**
   Availability: a kline call returns no bars exactly when no leg of its plan would give any in
   its turn.
   */
  lemma {:induction false} NoBarsExactly(s: Source, q: Question, world: World, n: nat)
    requires q.Kline?
    ensures RowsOf(Passed(s, q, world, n)) == [] <==>
              forall i: nat :: i < |Plan(s)| ==> RowsOf(Some(ReplyAt(s, q, world, n, i))) == []
  {
    CallMeans(s, q, world, n);
    hide Plan, Called, AsksOfCall, Passed, ReplyAt, LegVenue;
    var o := Called(s, q, world, n);
    if o.answered.Some? {
      assert RowsOf(Some(ReplyAt(s, q, world, n, o.asked - 1))) != [];
    } else {
      assert o.asked == |Plan(s)|;
    }
  }

  // ---------------------------------------------------------------- quotes

  ghost predicate PositiveAt(s: Source, q: Question, world: World, n: nat, i: nat)
    requires i < |Plan(s)|
  {
    LastOf(Some(ReplyAt(s, q, world, n, i))) > 0
  }

  /** The own venue's reply ends the call: a quote of any size, or a barred symbol. */
  ghost predicate OwnEnds(s: Source, q: Question, world: World, n: nat)
    requires Front(s) <= |Plan(s)|
  {
    var r := ReplyAt(s, q, world, n, Front(s) - 1);
    r.Quote? || r.Barred?
  }

  /**
   A ticker call gives a positive quote exactly when the preferred or the own venue has one, or a
   fallback has one and the own venue's reply does not end the call.
   */
  lemma {:induction false} PositiveQuoteExactly(s: Source, q: Question, world: World, n: nat)
    requires q.Ticker?
    ensures Front(s) <= |Plan(s)|
    ensures LastOf(Passed(s, q, world, n)) > 0 <==>
              exists i: nat :: i < |Plan(s)| && PositiveAt(s, q, world, n, i)
                               && (i < Front(s) || !OwnEnds(s, q, world, n))
  {
    PlanRoles(s);
    CallMeans(s, q, world, n);
    hide Plan, Called, AsksOfCall, Passed, ReplyAt, LegVenue, Front;
    var o := Called(s, q, world, n);
    if LastOf(Passed(s, q, world, n)) > 0 {
      assert PositiveAt(s, q, world, n, o.asked - 1);
    }
  }

  /** The own leg is the last before the fallbacks, and no other has its role. */
  lemma {:induction false} PlanRoles(s: Source)
    ensures 1 <= Front(s) <= |Plan(s)|
    ensures forall i: nat :: i < |Plan(s)| ==> (Plan(s)[i].role.Self? <==> i == Front(s) - 1)
  {
    PlanParts(s);
    FallbacksListed(FallbackIds(), s.ccxtId);
    var tail := Plan(s)[Front(s)..];
    hide Plan, FallbackIds, FallbackLegs;
    forall i: nat | i < |Plan(s)|
      ensures Plan(s)[i].role.Self? <==> i == Front(s) - 1
    {
      if i >= Front(s) {
        assert tail[i - Front(s)] == Plan(s)[i] && Plan(s)[i] in tail;
      }
    }
  }

  /** So a call misses a fallback's positive quote exactly when no earlier leg has one and the own venue ends it. */
  lemma {:induction false} QuoteMissedExactly(s: Source, q: Question, world: World, n: nat)
    requires q.Ticker?
    ensures Front(s) <= |Plan(s)|
    ensures LastOf(Passed(s, q, world, n)) <= 0 && (exists i: nat :: i < |Plan(s)| && PositiveAt(s, q, world, n, i)) <==>
              && OwnEnds(s, q, world, n)
              && (forall i: nat :: i < Front(s) ==> !PositiveAt(s, q, world, n, i))
              && exists i: nat :: Front(s) <= i < |Plan(s)| && PositiveAt(s, q, world, n, i)
  {
    PositiveQuoteExactly(s, q, world, n);
    hide Plan, Passed, PositiveAt, OwnEnds, Front;
  }

  // ---------------------------------------------------------------- who was asked

  /** The i-th question of the call went to venue `v`, and `v` gave no bars. */
  ghost predicate GaveNone(s: Source, q: Question, world: World, n: nat, v: Venue) {
    var asks := AsksOfCall(s, q, world, n);
    exists i :: 0 <= i < |asks| && asks[i] == Asked(v, q) && RowsOf(Some(world(v, q, n + i))) == []
  }

  /**
   A kline call returns no bars only if every venue of its plan was asked and gave none: its own,
   and for an unscoped source every listed fallback but the one whose id is its own client's.
   Otherwise the bars are those of the last venue asked.
   */
  lemma {:induction false} NoBarsOnlyIfNobodyHasAny(s: Source, q: Question, world: World, n: nat)
    requires q.Kline?
    ensures RowsOf(Passed(s, q, world, n)) == [] <==> Passed(s, q, world, n) == None
    ensures Passed(s, q, world, n) == None ==>
              && GaveNone(s, q, world, n, Own(s))
              && (s.allowFallback ==> forall id :: id in FallbackIds() && id != s.ccxtId ==>
                    GaveNone(s, q, world, n, Venue(ClientId(id, s.market), s.market)))
    ensures Passed(s, q, world, n).Some? ==>
              var asks := AsksOfCall(s, q, world, n);
              var v := asks[|asks| - 1].venue;
              Passed(s, q, world, n) == Some(world(v, q, n + |asks| - 1)) && Passed(s, q, world, n).value.rows != []
  {
    var o := Called(s, q, world, n);
    CallMeans(s, q, world, n);
    PlanParts(s);
    hide Plan, FallbackIds, FallbackLegs, Called, AsksOfCall, Passed, LegVenue;
    if o.answered.None? {
      assert o.asked == |Plan(s)|;
      OwnLeg(s);
      LegGaveNone(s, q, world, n, Front(s) - 1);
      if s.allowFallback {
        forall id | id in FallbackIds() && id != s.ccxtId
          ensures GaveNone(s, q, world, n, Venue(ClientId(id, s.market), s.market))
        {
          PlanCovers(s, id);
          var i: nat :| Front(s) <= i < |Plan(s)| && Plan(s)[i] == Leg(Fallback, id);
          FallbackVenue(s, id);
          LegGaveNone(s, q, world, n, i);
        }
      }
    }
  }

  lemma {:induction false} FallbackVenue(s: Source, id: string)
    ensures LegVenue(s, Leg(Fallback, id)) == Venue(ClientId(id, s.market), s.market)
  {
  }

  lemma {:induction false} LegGaveNone(s: Source, q: Question, world: World, n: nat, i: nat)
    requires q.Kline? && Called(s, q, world, n) == Outcome(|Plan(s)|, None) && i < |Plan(s)|
    ensures GaveNone(s, q, world, n, LegVenue(s, Plan(s)[i]))
  {
    CallMeans(s, q, world, n);
    hide Plan, Walk, Called, AsksOfCall, LegVenue;
    assert AsksOfCall(s, q, world, n)[i] == Asked(LegVenue(s, Plan(s)[i]), q);
  }

  // ---------------------------------------------------------------- runs

  datatype State = State(source: Source, log: seq<Asked>)

  function Run(s: Source, world: World, start: seq<Asked>, calls: seq<Question>): State {
    if calls == [] then State(s, start)
    else
      var st, q := Run(s, world, start, calls[..|calls| - 1]), calls[|calls| - 1];
      if Blank(q) then st
      else State(AfterCall(st.source, q, world, |st.log|), st.log + AsksOfCall(st.source, q, world, |st.log|))
  }

  /** A source scoped to a venue never asks another one, on any run. */
  lemma {:induction false} ScopedStaysHome(s: Source, world: World, start: seq<Asked>, calls: seq<Question>)
    requires !s.allowFallback
    ensures var st := Run(s, world, start, calls);
      && st.source == s && |start| <= |st.log| <= |start| + |calls|
      && forall i :: |start| <= i < |st.log| ==> st.log[i].venue == Own(s)
  {
    if calls != [] {
      var front, q := calls[..|calls| - 1], calls[|calls| - 1];
      ScopedStaysHome(s, world, start, front);
      WalkScoped(s, q, world, |Run(s, world, start, front).log|);
    }
  }

  /** A call that names an exchange gets a source that never leaves it, or an error. */
  lemma {:induction false} NamedExchangeIsKept(ex: string, marketType: string, default: string, world: World,
          start: seq<Asked>, calls: seq<Question>)
    requires ex != ""
    ensures var r := Resolve("Crypto", ex, marketType, default);
      && (r.Unsupported? <==> CanonicalId(ex, default) !in PublicIds())
      && (r.Crypto? ==>
            r.source.market == (if marketType == "" then "swap" else CanonicalMarket(marketType))
            && r.source.ccxtId == ClientId(CanonicalId(ex, default), r.source.market))
      && (r.Crypto? ==> forall i :: |start| <= i < |Run(r.source, world, start, calls).log| ==>
            Run(r.source, world, start, calls).log[i].venue == Own(r.source))
      && !r.Other?
  {
    var r := Resolve("Crypto", ex, marketType, default);
    if r.Crypto? {
      ScopedStaysHome(r.source, world, start, calls);
    }
  }

  lemma {:induction false} PublicMayFailOver(marketType: string, default: string)
    ensures var r := Resolve("Crypto", "", marketType, default);
      && r.Crypto? && r.source.allowFallback && Proper(r.source)
      && r.source.market == if CanonicalMarket(marketType) == "swap" then "swap" else "spot"
  {
    assert ['s', 'w', 'a', 'p'] == "swap" && ['s', 'p', 'o', 't'] == "spot";
  }

  /** The venue has given an answer that another source would accept, at some point of the log. */
  ghost predicate HasAnswered(world: World, log: seq<Asked>, v: Venue) {
    exists i :: 0 <= i < |log| && log[i].venue == v && Answers(log[i].question, Fallback, world(v, log[i].question, i))
  }

  /** The remembered venue names one that has answered. */
  ghost predicate Earned(st: State, world: World) {
    st.source.preferred != "" ==>
      HasAnswered(world, st.log, Venue(ClientId(st.source.preferred, st.source.market), st.source.market))
  }

  lemma {:induction false} AnsweredEarlier(world: World, log: seq<Asked>, more: seq<Asked>, v: Venue)
    requires HasAnswered(world, log, v)
    ensures HasAnswered(world, log + more, v)
  {
    var i :| 0 <= i < |log| && log[i].venue == v && Answers(log[i].question, Fallback, world(v, log[i].question, i));
    assert (log + more)[i] == log[i];
  }

  /** The preference stays, is given up, or moves to the listed fallback that answered last. */
  lemma {:induction false} PreferenceMoves(s: Source, q: Question, world: World, n: nat)
    ensures var (o, p) := (Called(s, q, world, n), AfterCall(s, q, world, n).preferred);
      && AfterCall(s, q, world, n) == s.(preferred := p) && 1 <= o.asked <= |Plan(s)|
      && (p == s.preferred || p == "" || (o.answered.Some? && Plan(s)[o.asked - 1] == Leg(Fallback, p)))
  {
    CallMeans(s, q, world, n);
  }

  /** The fallback whose answer was passed on has answered. */
  lemma {:induction false} NewPreference(s: Source, log: seq<Asked>, world: World, q: Question, id: string)
    requires var o := Called(s, q, world, |log|);
      o.answered.Some? && 1 <= o.asked <= |Plan(s)| && Plan(s)[o.asked - 1] == Leg(Fallback, id)
    ensures s.allowFallback && id in FallbackIds()
    ensures HasAnswered(world, log + AsksOfCall(s, q, world, |log|), Venue(ClientId(id, s.market), s.market))
  {
    hide Plan, FallbackIds, Called, AsksOfCall, HasAnswered, LegVenue, Answers, Passed, ClientId;
    var n := |log|;
    CallMeans(s, q, world, n);
    var asks, k := AsksOfCall(s, q, world, n), Called(s, q, world, n).asked - 1;
    FallbackFromList(s, k);
    FallbackVenue(s, id);
    hide *;
    var v := LegVenue(s, Leg(Fallback, id));
    assert asks[k] == Asked(v, q);
    LastOfLog(log, asks, k);
    ReplyOf(s, q, world, n, k);
    JustAnswered(world, log + asks, v, n + k);
  }

  lemma {:induction false} ReplyOf(s: Source, q: Question, world: World, n: nat, i: nat)
    requires i < |Plan(s)|
    ensures ReplyAt(s, q, world, n, i) == world(LegVenue(s, Plan(s)[i]), q, n + i)
  {
  }

  lemma {:induction false} LastOfLog(log: seq<Asked>, asks: seq<Asked>, k: nat)
    requires k < |asks|
    ensures |log + asks| == |log| + |asks| && (log + asks)[|log| + k] == asks[k]
  {
  }

  lemma {:induction false} CallEarns(st: State, world: World, q: Question)
    requires Earned(st, world) && Proper(st.source)
    ensures var (s, n) := (st.source, |st.log|);
      && Proper(AfterCall(s, q, world, n))
      && Earned(State(AfterCall(s, q, world, n), st.log + AsksOfCall(s, q, world, n)), world)
  {
    hide Plan, FallbackIds, Called, AsksOfCall, AfterCall, HasAnswered;
    var s, n := st.source, |st.log|;
    PreferenceMoves(s, q, world, n);
    var p := AfterCall(s, q, world, n).preferred;
    if p == "" {
    } else if p == s.preferred {
      AnsweredEarlier(world, st.log, AsksOfCall(s, q, world, n), Venue(ClientId(p, s.market), s.market));
    } else {
      NewPreference(s, st.log, world, q, p);
    }
  }

  lemma {:induction false} JustAnswered(world: World, log: seq<Asked>, v: Venue, i: nat)
    requires i < |log| && log[i].venue == v && Answers(log[i].question, Fallback, world(v, log[i].question, i))
    ensures HasAnswered(world, log, v)
  {
  }

  lemma {:induction false} FallbackFromList(s: Source, k: nat)
    requires k < |Plan(s)| && Plan(s)[k].role.Fallback?
    ensures s.allowFallback && Plan(s)[k].id in FallbackIds()
  {
    PlanParts(s);
    FallbacksListed(FallbackIds(), s.ccxtId);
    if k >= Front(s) {
      assert Plan(s)[Front(s)..][k - Front(s)] == Plan(s)[k];
    }
  }

  /** On any run of kline and ticker calls, the preferred venue is one that has answered. */
  lemma {:induction false} PreferredHasAnswered(s: Source, world: World, start: seq<Asked>, calls: seq<Question>)
    requires Proper(s) && s.preferred == ""
    ensures var st := Run(s, world, start, calls); Proper(st.source) && Earned(st, world)
  {
    if calls != [] {
      PreferredHasAnswered(s, world, start, calls[..|calls| - 1]);
      CallEarns(Run(s, world, start, calls[..|calls| - 1]), world, calls[|calls| - 1]);
    }
  }

  // ---------------------------------------------------------------- venues asked twice

  /** Two legs of the plan name the same venue. */
  ghost predicate Repeats(s: Source) {
    exists i, j :: 0 <= i < j < |Plan(s)| && LegVenue(s, Plan(s)[i]) == LegVenue(s, Plan(s)[j])
  }

  predicate DistinctIds(ids: seq<string>) {
    forall i, j :: 0 <= i < j < |ids| ==> ids[i] != ids[j]
  }

  lemma {:induction false} FallbackIdsDistinct()
    ensures DistinctIds(FallbackIds())
    ensures forall id :: id in FallbackIds() ==> |id| <= 7
  {
    var ids := FallbackIds();
    assert ids[0][2] == 't' && ids[1][0] == 'o' && ids[2][0] == 'g' && ids[3][0] == 'h' && ids[4][1] == 'y'
           && ids[5][2] == 'n';
    assert |ids[0]| == 6 && |ids[1]| == 3 && |ids[2]| == 4 && |ids[3]| == 3 && |ids[4]| == 5 && |ids[5]| == 7;
  }

  lemma {:induction false} FallbackLegsDistinct(ids: seq<string>, current: string)
    requires DistinctIds(ids)
    ensures var legs := FallbackLegs(ids, current); forall i, j :: 0 <= i < j < |legs| ==> legs[i].id != legs[j].id
  {
    if ids != [] {
      var rest := FallbackLegs(ids[1..], current);
      FallbackLegsDistinct(ids[1..], current);
      FallbacksListed(ids[1..], current);
      forall i | 0 <= i < |rest|
        ensures rest[i].id != ids[0]
      {
        assert rest[i] in rest && rest[i].id in ids[1..];
      }
    }
  }

  /** The clients of two listed ids are the same only if the ids are. */
  lemma {:induction false} ClientsDiffer(a: string, b: string, market: string)
    requires a in FallbackIds() && b in FallbackIds() && a != b
    ensures ClientId(a, market) != ClientId(b, market)
  {
    FallbackIdsDistinct();
    assert |"binanceusdm"| == 11;
    hide FallbackIds;
  }

  /** Only the futures client of Binance goes by another name than its registry id. */
  lemma {:induction false} ClientElsewhere(id: string, current: string, market: string)
    requires id != current && ClientId(id, market) == current
    ensures id == "binance" && market == "swap" && current == "binanceusdm"
  {
  }

  /** A plan that does not try a preferred venue repeats only the own venue of Binance futures. */
  lemma {:induction false} PlainPlanRepeats(s: Source)
    requires !TriesPreferred(s) && Repeats(s)
    ensures s.allowFallback && s.ccxtId == "binanceusdm" && s.market == "swap"
  {
    PlanParts(s);
    FallbackIdsDistinct();
    hide FallbackIds;
    FallbackLegsDistinct(FallbackIds(), s.ccxtId);
    FallbacksListed(FallbackIds(), s.ccxtId);
    var tail := if s.allowFallback then FallbackLegs(FallbackIds(), s.ccxtId) else [];
    assert forall i :: 1 <= i < |Plan(s)| ==> Plan(s)[i] == tail[i - 1];
    hide Plan, FallbackLegs, FallbackIds, ClientId;
    var i, j :| 0 <= i < j < |Plan(s)| && LegVenue(s, Plan(s)[i]) == LegVenue(s, Plan(s)[j]);
    var later := tail[j - 1];
    assert later in tail;
    if i == 0 {
      ClientElsewhere(later.id, s.ccxtId, s.market);
    } else {
      assert tail[i - 1] in tail && tail[i - 1].id != later.id;
      ClientsDiffer(tail[i - 1].id, later.id, s.market);
    }
  }

  lemma {:induction false} RepeatsAt(s: Source, i: nat, j: nat)
    requires i < j < |Plan(s)| && LegVenue(s, Plan(s)[i]) == LegVenue(s, Plan(s)[j])
    ensures Repeats(s)
  {
  }

  /**
   A call may ask a venue twice exactly in two cases: when a preferred venue is tried first,
   which the fallback loop then asks again, and when the own client is that of Binance futures,
   because the loop compares registry ids with the client's id.
   */
  lemma {:induction false} VenueRepeatsExactly(s: Source)
    requires Proper(s)
    ensures Repeats(s) <==> TriesPreferred(s) || (s.allowFallback && s.ccxtId == "binanceusdm" && s.market == "swap")
  {
    PlanParts(s);
    if TriesPreferred(s) {
      PlanCovers(s, s.preferred);
      hide Plan, FallbackIds;
      var i: nat :| Front(s) <= i < |Plan(s)| && Plan(s)[i] == Leg(Fallback, s.preferred);
      RepeatsAt(s, 0, i);
    } else if s.allowFallback && s.ccxtId == "binanceusdm" && s.market == "swap" {
      assert "binance" == FallbackIds()[5] && |"binance"| == 7 && |s.ccxtId| == 11;
      PlanCovers(s, "binance");
      hide Plan, FallbackIds;
      var i: nat :| Front(s) <= i < |Plan(s)| && Plan(s)[i] == Leg(Fallback, "binance");
      RepeatsAt(s, Front(s) - 1, i);
    } else if Repeats(s) {
      PlainPlanRepeats(s);
    }
  }

  /** For instance, the unscoped futures source on Binance asks its own venue first and last. */
  lemma {:induction false} BinanceFuturesAskedTwice()
    ensures var s := ForPublicMarket("swap", "binance");
      && s.ccxtId == "binanceusdm"
      && LegVenue(s, Plan(s)[0]) == Own(s) && LegVenue(s, Plan(s)[|Plan(s)| - 1]) == Own(s) && |Plan(s)| == 7
  {
    var s := ForPublicMarket("swap", "binance");
    assert s == Source(true, "binanceusdm", "swap", "");
    var ids := FallbackIds();
    assert forall i :: 0 <= i < 6 ==> |ids[i]| < |s.ccxtId|;
    AllOthers(ids, s.ccxtId);
    PlanParts(s);
    assert Plan(s)[6] == Plan(s)[1..][5];
  }

  lemma {:induction false} AllOthers(ids: seq<string>, current: string)
    requires forall i :: 0 <= i < |ids| ==> ids[i] != current
    ensures |FallbackLegs(ids, current)| == |ids|
    ensures forall i :: 0 <= i < |ids| ==> FallbackLegs(ids, current)[i] == Leg(Fallback, ids[i])
  {
    if ids != [] {
      AllOthers(ids[1..], current);
    }
  }

  // ---------------------------------------------------------------- which venue, by name

  /** The registry's spelling of an exchange name. */
  predicate Names(name: string, id: string) {
    (name == "huobi" && id == "htx") || (name != "huobi" && id == name)
  }

  predicate Listed(id: string) {
    id == "binance" || id == "bitget" || id == "bybit" || id == "okx" || id == "gate" || id == "htx"
  }

  /**
   A named exchange gives its own client, htx for huobi, or an error when it is not listed; an
   unnamed call gives the default exchange, binance when that is not listed. Binance has its own
   client for swaps.
   */
  lemma {:induction false} VenueByName(ex: string, marketType: string, default: string, id: string)
    requires Names(if ex != "" then ex else default, id) && marketType in ["", "spot", "swap", "futures", "perp"]
    ensures var r := Resolve("Crypto", ex, marketType, default);
      var market := if marketType == "spot" || (marketType == "" && ex == "") then "spot" else "swap";
      && (ex != "" && !Listed(id) ==> r == Unsupported)
      && (ex != "" && Listed(id) ==>
            r == Crypto(Source(false, if id == "binance" && market == "swap" then "binanceusdm" else id, market, "")))
      && (ex == "" ==>
            var own := if default != "" && Listed(id) then id else "binance";
            r == Crypto(Source(true, if own == "binance" && market == "swap" then "binanceusdm" else own, market, "")))
  {
    assert Listed(id) <==> id in PublicIds();
  }

  /** An unscoped source falls back to every listed exchange but its own, in this order. */
  lemma {:induction false} FallbacksByName(s: Source, id: string)
    requires s.allowFallback
    ensures Leg(Fallback, id) in Plan(s) <==> Listed(id) && id != s.ccxtId
    ensures Plan(Source(true, "binanceusdm", "swap", ""))[1..] ==
              [Leg(Fallback, "bitget"), Leg(Fallback, "okx"), Leg(Fallback, "gate"), Leg(Fallback, "htx"),
               Leg(Fallback, "bybit"), Leg(Fallback, "binance")]
  {
    FallbacksListed(FallbackIds(), s.ccxtId);
    assert Listed(id) <==> id in FallbackIds();
    PlanTail(s, id);
    AllInOrder();
  }

  lemma {:induction false} PlanTail(s: Source, id: string)
    requires s.allowFallback
    ensures Leg(Fallback, id) in Plan(s) <==> Leg(Fallback, id) in FallbackLegs(FallbackIds(), s.ccxtId)
  {
    hide FallbackIds, FallbackLegs;
  }

  lemma {:induction false} AllInOrder()
    ensures Plan(Source(true, "binanceusdm", "swap", ""))[1..] ==
              [Leg(Fallback, "bitget"), Leg(Fallback, "okx"), Leg(Fallback, "gate"), Leg(Fallback, "htx"),
               Leg(Fallback, "bybit"), Leg(Fallback, "binance")]
  {
    var ids, own := FallbackIds(), "binanceusdm";
    assert forall k :: 0 <= k < 6 ==> ids[k] != own by {
      assert |own| == 11 && forall k :: 0 <= k < 6 ==> |ids[k]| < 11;
    }
    OthersOf(ids, own);
  }

  lemma {:induction false} OthersOf(ids: seq<string>, own: string)
    requires forall k :: 0 <= k < |ids| ==> ids[k] != own
    ensures |FallbackLegs(ids, own)| == |ids|
    ensures forall k :: 0 <= k < |ids| ==> FallbackLegs(ids, own)[k] == Leg(Fallback, ids[k])
  {
    if ids != [] {
      OthersOf(ids[1..], own);
    }
  }
}
