/** The market and level tables of crates/storage/src/strategy.rs, and the validation of
    crates/trigger/src/authoring.rs that runs between reading a market and writing a level. */
module MarketStore {
  import opened Wrappers
  import opened DecimalText
  import opened DecimalNumber
  import opened DecimalOrder
  import opened Units
  import opened Widths

  datatype Side = Buy | Sell

  datatype Strategy = Strategy(id: string, venue: string, chain: string, baseToken: string, quoteToken: string)

  datatype Level = Level(id: string, strategyId: string, side: Side, amount: nat, amountDecimals: nat, slippageBps: nat)

  datatype LevelDraft = LevelDraft(id: string, strategyId: string, side: string, amount: string, slippageBps: nat)

  /** The three tables; an order row is represented by the level it belongs to. */
  datatype Tables = Tables(strategies: map<string, Strategy>, levels: map<string, Level>, orders: map<string, string>)

  datatype Token = Token(family: string, decimals: nat, priceRef: Option<string>)

  /** A configuration snapshot: registered tokens by chain and name, quoted price pairs, venue families, and the
      slippage limit. */
  datatype Config = Config(
    token: (string, string) -> Option<Token>,
    supports: string -> bool,
    familyOf: string -> string,
    maxSlippageBps: nat)

  // ---------------------------------------------------------------- the conditional writes

  predicate HasLevels(tables: Tables, strategyId: string) {
    exists id :: id in tables.levels && tables.levels[id].strategyId == strategyId
  }

  predicate HasOrders(tables: Tables, levelId: string) {
    exists id :: id in tables.orders && tables.orders[id] == levelId
  }

  /** A market may be created, rewritten as it is, or changed while no level points at it. */
  function WithStrategy(tables: Tables, s: Strategy): Result<Tables, string> {
    if Lower(s.baseToken) == Lower(s.quoteToken) then Err("cannot upsert strategy")
    else if s.id in tables.strategies && tables.strategies[s.id] != s && HasLevels(tables, s.id)
    then Err("strategy cannot change while it has levels")
    else Ok(tables.(strategies := tables.strategies[s.id := s]))
  }

  /** A level is written only while its market is still, field by field, the one it was validated against. */
  function WithLevel(tables: Tables, level: Level, expected: Strategy): Result<Tables, string> {
    if level.strategyId != expected.id then Err("level strategy_id does not match its expected strategy")
    else if expected.id !in tables.strategies || tables.strategies[expected.id] != expected
    then Err("strategy changed while level was validated")
    else Ok(tables.(levels := tables.levels[level.id := level]))
  }

  /** Orders keep their level: deleting it is refused. Deleting an unknown level succeeds. */
  function WithoutLevel(tables: Tables, id: string): Result<Tables, string> {
    if HasOrders(tables, id) then Err("cannot delete level; it may still have orders")
    else Ok(tables.(levels := tables.levels - {id}))
  }

  function WithOrder(tables: Tables, orderId: string, levelId: string): Result<Tables, string> {
    if levelId !in tables.levels then Err("cannot upsert order")
    else Ok(tables.(orders := tables.orders[orderId := levelId]))
  }

  /** The tables as the store changes them, one statement at a time. */
  class Store {
    var strategies: map<string, Strategy>
    var levels: map<string, Level>
    var orders: map<string, string>

    constructor ()
      ensures Contents() == Tables(map[], map[], map[])
    {
      strategies, levels, orders := map[], map[], map[];
    }

    function Contents(): Tables
      reads this
    {
      Tables(strategies, levels, orders)
    }

    method UpsertStrategy(s: Strategy) returns (r: Result<(), string>)
      modifies this`strategies
      ensures match WithStrategy(old(Contents()), s)
              case Ok(after) => r == Ok(()) && Contents() == after
              case Err(reason) => r == Err(reason) && Contents() == old(Contents())
      ensures r.Ok? <==>
                && Lower(s.baseToken) != Lower(s.quoteToken)
                && (s.id in old(strategies) && old(strategies)[s.id] != s ==>
                      forall id :: id in levels ==> levels[id].strategyId != s.id)
      ensures strategies == if r.Ok? then old(strategies)[s.id := s] else old(strategies)
    {
      if Lower(s.baseToken) == Lower(s.quoteToken) {
        return Err("cannot upsert strategy");
      }
      var changed := 0;
      if s.id !in strategies {
        strategies := strategies[s.id := s];
        changed := 1;
      } else {
        var row := strategies[s.id];
        if (row.venue == s.venue && row.chain == s.chain && row.baseToken == s.baseToken
            && row.quoteToken == s.quoteToken && row.id == s.id)
           || !exists id :: id in levels && levels[id].strategyId == s.id
        {
          strategies := strategies[s.id := s];
          changed := 1;
        }
      }
      if changed != 1 {
        return Err("strategy cannot change while it has levels");
      }
      r := Ok(());
    }

    method GetStrategy(id: string) returns (s: Option<Strategy>)
      ensures s == if id in strategies then Some(strategies[id]) else None
    {
      s := if id in strategies then Some(strategies[id]) else None;
    }

    method UpsertLevel(level: Level, expected: Strategy) returns (r: Result<(), string>)
      modifies this`levels
      ensures match WithLevel(old(Contents()), level, expected)
              case Ok(after) => r == Ok(()) && Contents() == after
              case Err(reason) => r == Err(reason) && Contents() == old(Contents())
      ensures r.Ok? <==>
                level.strategyId == expected.id && expected.id in strategies && strategies[expected.id] == expected
      ensures levels == if r.Ok? then old(levels)[level.id := level] else old(levels)
    {
      if level.strategyId != expected.id {
        return Err("level strategy_id does not match its expected strategy");
      }
      var changed := 0;
      if expected.id in strategies {
        if strategies[expected.id] == expected {
          levels := levels[level.id := level];
          changed := 1;
        }
      }
      if changed != 1 {
        return Err("strategy changed while level was validated");
      }
      r := Ok(());
    }

    method DeleteLevel(id: string) returns (r: Result<(), string>)
      modifies this`levels
      ensures match WithoutLevel(old(Contents()), id)
              case Ok(after) => r == Ok(()) && Contents() == after
              case Err(reason) => r == Err(reason) && Contents() == old(Contents())
      ensures r.Ok? <==> forall o :: o in orders ==> orders[o] != id
      ensures levels == if r.Ok? then old(levels) - {id} else old(levels)
    {
      if exists o :: o in orders && orders[o] == id {
        return Err("cannot delete level; it may still have orders");
      }
      levels := levels - {id};
      r := Ok(());
    }

    method UpsertOrder(orderId: string, levelId: string) returns (r: Result<(), string>)
      modifies this`orders
      ensures match WithOrder(old(Contents()), orderId, levelId)
              case Ok(after) => r == Ok(()) && Contents() == after
              case Err(reason) => r == Err(reason) && Contents() == old(Contents())
      ensures r.Ok? <==> levelId in levels
      ensures orders == if r.Ok? then old(orders)[orderId := levelId] else old(orders)
    {
      if levelId !in levels {
        return Err("cannot upsert order");
      }
      orders := orders[orderId := levelId];
      r := Ok(());
    }
  }

  // ---------------------------------------------------------------- validation

  function TokenIn(s: Strategy, side: Side): string {
    match side
    case Buy => s.quoteToken
    case Sell => s.baseToken
  }

  function TokenOut(s: Strategy, side: Side): string {
    match side
    case Buy => s.baseToken
    case Sell => s.quoteToken
  }

  /** What quote_request asks a venue for. */
  datatype TradeRequest = TradeRequest(
    venue: string, tokenIn: string, tokenOut: string, amount: string, slippageBps: nat, chain: string)

  function QuoteRequest(s: Strategy, level: Level): Result<TradeRequest, string> {
    var amount :- FormatUnitsString(NatText(level.amount), level.amountDecimals);
    Ok(TradeRequest(s.venue, TokenIn(s, level.side), TokenOut(s, level.side), amount, level.slippageBps, s.chain))
  }

  function ParseSide(text: string): Result<Side, string> {
    if text == "buy" then Ok(Buy) else if text == "sell" then Ok(Sell) else Err("unknown side")
  }

  function Registered(config: Config, chain: string, name: string): Result<Token, string> {
    match config.token(chain, name)
    case Some(token) => Ok(token)
    case None => Err("chain does not configure token")
  }

  function ValidateStrategyModel(config: Config, s: Strategy): Result<(), string> {
    var base :- Registered(config, s.chain, s.baseToken);
    var quote :- Registered(config, s.chain, s.quoteToken);
    if Lower(s.baseToken) == Lower(s.quoteToken) then Err("base_token and quote_token must differ")
    else if config.familyOf(s.venue) != base.family then Err("venue does not trade this chain")
    else if base.priceRef.None? then Err("cannot resolve the strategy's base token")
    else if !config.supports(base.priceRef.value) then Err("no price source quotes the base token")
    else Ok(())
  }

  function ValidateLevel(config: Config, s: Strategy, draft: LevelDraft): Result<Level, string> {
    if draft.strategyId != s.id then Err("level strategy_id does not match strategy")
    else
      var _ :- ValidateStrategyModel(config, s);
      if draft.slippageBps > config.maxSlippageBps then Err("slippage_bps must not exceed the configured maximum")
      else
        var side :- ParseSide(draft.side);
        var input :- Registered(config, s.chain, TokenIn(s, side));
        var amount :- ParseUnitsString(draft.amount, input.decimals);
        if !AllDigits(amount) || Value(amount) >= TWO256 then Err("amount does not fit in 256 bits")
        else Ok(Level(draft.id, s.id, side, Value(amount), input.decimals, draft.slippageBps))
  }

  /** The fail-closed check the daemon makes on every stored level when it starts. */
  function ValidateStoredLevel(config: Config, s: Strategy, level: Level): Result<(), string> {
    var _ :- ValidateStrategyModel(config, s);
    if level.strategyId != s.id then Err("level references a different strategy")
    else if level.slippageBps > config.maxSlippageBps then Err("slippage exceeds configured maximum")
    else
      var input :- Registered(config, s.chain, TokenIn(s, level.side));
      if level.amountDecimals != input.decimals then Err("stored decimals drifted") else Ok(())
  }

  predicate Sound(config: Config, s: Strategy, level: Level) {
    ValidateStoredLevel(config, s, level).Ok? && 0 < level.amount < TWO256
  }

  /** A draft that validates becomes a level the startup check accepts, whose amount is exactly the number of
      base units written; the 256-bit conversion after parsing cannot fail. */
  lemma ValidatedIsSound(config: Config, s: Strategy, draft: LevelDraft)
    ensures ValidateLevel(config, s, draft) != Err("amount does not fit in 256 bits")
    ensures ValidateLevel(config, s, draft).Ok? ==>
              var level := ValidateLevel(config, s, draft).value;
              && Sound(config, s, level) && level.strategyId == s.id && level.id == draft.id
              && Payable(Trim(draft.amount), level.amountDecimals)
              && Frac(level.amount, level.amountDecimals) == Number(Trim(draft.amount))
  {
    hide ParseUnitsString, Trim, NatText, Frac, Number, BaseUnits;
    var side := ParseSide(draft.side);
    if side.Ok? {
      var input := Registered(config, s.chain, TokenIn(s, side.value));
      if input.Ok? {
        ParseMeans(draft.amount, input.value.decimals);
        ParseErrors(draft.amount, input.value.decimals);
        if Payable(Trim(draft.amount), input.value.decimals) {
          NatTextValue(BaseUnits(Trim(draft.amount), input.value.decimals));
          BaseUnitsExact(Trim(draft.amount), input.value.decimals);
        }
      }
    }
  }

  /** What a market needs to be traded: two different registered tokens, a venue for their chain, and a price. */
  predicate Tradable(config: Config, s: Strategy) {
    && config.token(s.chain, s.baseToken).Some? && config.token(s.chain, s.quoteToken).Some?
    && Lower(s.baseToken) != Lower(s.quoteToken)
    && var base := config.token(s.chain, s.baseToken).value;
    && config.familyOf(s.venue) == base.family && base.priceRef.Some? && config.supports(base.priceRef.value)
  }

  lemma MarketValidIff(config: Config, s: Strategy)
    ensures ValidateStrategyModel(config, s).Ok? <==> Tradable(config, s)
  {
  }

  /** Exactly which stored levels the startup check lets pass. */
  lemma StoredLevelPassesIff(config: Config, s: Strategy, level: Level)
    ensures ValidateStoredLevel(config, s, level).Ok? <==>
            && Tradable(config, s) && level.strategyId == s.id && level.slippageBps <= config.maxSlippageBps
            && level.amountDecimals ==
               config.token(s.chain, if level.side.Buy? then s.quoteToken else s.baseToken).value.decimals
  {
    hide ValidateStrategyModel;
    MarketValidIff(config, s);
  }

  /** `level` is the draft, spending `token`: the registered decimals, and exactly the base units written. */
  predicate Spends(config: Config, s: Strategy, draft: LevelDraft, level: Level, side: Side, token: string) {
    && config.token(s.chain, token).Some?
    && level == Level(draft.id, s.id, side, level.amount, config.token(s.chain, token).value.decimals,
                      draft.slippageBps)
    && Payable(Trim(draft.amount), level.amountDecimals) && 0 < level.amount < TWO256
    && Frac(level.amount, level.amountDecimals) == Number(Trim(draft.amount))
  }

  /** Exactly which drafts become levels, and which: "buy" spends the market's quote token and "sell" its base token,
      in the decimals registered for it on the market's chain; any other side is refused. */
  lemma DraftBecomesLevelIff(config: Config, s: Strategy, draft: LevelDraft)
    ensures var r := ValidateLevel(config, s, draft);
            && (r.Ok? <==>
                  && draft.strategyId == s.id && Tradable(config, s) && draft.slippageBps <= config.maxSlippageBps
                  && (draft.side == "buy" || draft.side == "sell")
                  && var token := if draft.side == "buy" then s.quoteToken else s.baseToken;
                     Payable(Trim(draft.amount), config.token(s.chain, token).value.decimals))
            && (r.Ok? && draft.side == "buy" ==> Spends(config, s, draft, r.value, Buy, s.quoteToken))
            && (r.Ok? && draft.side == "sell" ==> Spends(config, s, draft, r.value, Sell, s.baseToken))
  {
    hide ParseUnitsString, Trim, NatText, Frac, Number, BaseUnits, Lower, Payable, ValidateStrategyModel;
    MarketValidIff(config, s);
    ValidatedIsSound(config, s, draft);
    if Tradable(config, s) {
      ParseMeans(draft.amount, config.token(s.chain, s.baseToken).value.decimals);
      ParseMeans(draft.amount, config.token(s.chain, s.quoteToken).value.decimals);
    }
  }

  lemma ParseErrors(text: string, decimals: nat)
    ensures ParseUnitsString(text, decimals) != Err("amount does not fit in 256 bits")
  {
    hide Trim, TrimZeros, PadRight, ExceedsU256, Whole, Fraction;
    var message := "amount does not fit in 256 bits";
    assert message[7] == 'd';
    assert "amount must be a positive decimal string"[7] == 'm' && "amount must be a decimal string"[7] == 'm';
    assert "amount has too many decimal places"[7] == 'h' && "amount must be greater than zero"[7] == 'm';
    assert "amount exceeds uint256"[7] == 'e';
  }

  /** set_level of the agent's tools, nothing interleaved: the level written is the validated draft, against the
      market read, and nothing is written otherwise. */
  method SetLevel(config: Config, store: Store, draft: LevelDraft) returns (r: Result<Level, string>)
    modifies store`levels
    ensures draft.strategyId !in store.strategies
            ==> r == Err("strategy does not exist") && store.levels == old(store.levels)
    ensures draft.strategyId in store.strategies ==>
              && r == ValidateLevel(config, store.strategies[draft.strategyId], draft)
              && store.levels == if r.Ok? then old(store.levels)[r.value.id := r.value] else old(store.levels)
    ensures r.Ok? ==>
              && draft.strategyId in store.strategies
              && var s := store.strategies[draft.strategyId];
              && r.value.id == draft.id && Tradable(config, s)
              && (|| (draft.side == "buy" && Spends(config, s, draft, r.value, Buy, s.quoteToken))
                  || (draft.side == "sell" && Spends(config, s, draft, r.value, Sell, s.baseToken)))
  {
    hide ValidateStrategyModel, ParseUnitsString, ValidateLevel, Spends, Tradable;
    var strategy := store.GetStrategy(draft.strategyId);
    if strategy.None? {
      return Err("strategy does not exist");
    }
    var level := ValidateLevel(config, strategy.value, draft);
    if level.Err? {
      return level;
    }
    ValidatedIsSound(config, strategy.value, draft);
    DraftBecomesLevelIff(config, strategy.value, draft);
    var written := store.UpsertLevel(level.value, strategy.value);
    assert written.Ok?;
    r := level;
  }

  // ---------------------------------------------------------------- interleavings

  /** Tables shared by any number of authoring clients. `pending` holds levels that were validated against a
      market read earlier and may be written at any later time; `origin` records, for each stored level, the
      market it was validated against. */
  datatype World = World(tables: Tables, pending: set<(Level, Strategy)>, origin: map<string, Strategy>)

  datatype Event =
    | Author(draft: LevelDraft)
    | Commit(level: Level, expected: Strategy)
    | EditMarket(s: Strategy)
    | Remove(levelId: string)
    | Record(orderId: string, forLevel: string)

  function OrKeep(r: Result<Tables, string>, tables: Tables): Tables {
    if r.Ok? then r.value else tables
  }

  function Step(config: Config, w: World, e: Event): World {
    match e
    case Author(draft) =>
      if draft.strategyId !in w.tables.strategies then w
      else
        var s := w.tables.strategies[draft.strategyId];
        (match ValidateLevel(config, s, draft)
         case Ok(level) => w.(pending := w.pending + {(level, s)})
         case Err(_) => w)
    case Commit(level, expected) =>
      if (level, expected) !in w.pending || WithLevel(w.tables, level, expected).Err? then w
      else w.(tables := WithLevel(w.tables, level, expected).value, origin := w.origin[level.id := expected])
    case EditMarket(s) => w.(tables := OrKeep(WithStrategy(w.tables, s), w.tables))
    case Remove(id) => w.(tables := OrKeep(WithoutLevel(w.tables, id), w.tables))
    case Record(orderId, levelId) => w.(tables := OrKeep(WithOrder(w.tables, orderId, levelId), w.tables))
  }

  function After(config: Config, w: World, events: seq<Event>): World
    decreases |events|
  {
    if events == [] then w else After(config, Step(config, w, events[0]), events[1..])
  }

  /** The steps do what they are for: a draft validated against the stored market and committed is the stored level,
      filed under that market; a level without orders can be removed; an order of a stored level is recorded; and a
      market without levels takes any edit to two different tokens. */
  lemma StepsTakeEffect(config: Config, w: World, draft: LevelDraft, levelId: string, orderId: string, edited: Strategy)
    ensures draft.strategyId in w.tables.strategies ==>
              var s := w.tables.strategies[draft.strategyId];
              s.id == draft.strategyId && ValidateLevel(config, s, draft).Ok? ==>
                var level := ValidateLevel(config, s, draft).value;
                var after := Step(config, Step(config, w, Author(draft)), Commit(level, s));
                after.tables == w.tables.(levels := w.tables.levels[draft.id := level])
                && after.origin == w.origin[draft.id := s]
    ensures (forall o :: o in w.tables.orders ==> w.tables.orders[o] != levelId) ==>
              Step(config, w, Remove(levelId)).tables == w.tables.(levels := w.tables.levels - {levelId})
    ensures levelId in w.tables.levels ==>
              Step(config, w, Record(orderId, levelId)).tables
              == w.tables.(orders := w.tables.orders[orderId := levelId])
    ensures Lower(edited.baseToken) != Lower(edited.quoteToken)
            && (forall id :: id in w.tables.levels ==> w.tables.levels[id].strategyId != edited.id) ==>
              Step(config, w, EditMarket(edited)).tables
              == w.tables.(strategies := w.tables.strategies[edited.id := edited])
  {
    hide ValidateLevel, Lower, Sound;
    if draft.strategyId in w.tables.strategies {
      ValidatedIsSound(config, w.tables.strategies[draft.strategyId], draft);
    }
  }

  const EMPTY: World := World(Tables(map[], map[], map[]), {}, map[])

  predicate LevelOk(config: Config, w: World, id: string)
    requires id in w.tables.levels
  {
    var level := w.tables.levels[id];
    && level.id == id && level.strategyId in w.tables.strategies && id in w.origin
    && w.tables.strategies[level.strategyId] == w.origin[id]
    && Sound(config, w.origin[id], level)
  }

  predicate Consistent(config: Config, w: World) {
    && (forall id :: id in w.tables.levels ==> LevelOk(config, w, id))
    && (forall p :: p in w.pending ==> Sound(config, p.1, p.0))
    && (forall o :: o in w.tables.orders ==> w.tables.orders[o] in w.tables.levels)
  }

  lemma AuthorKeeps(config: Config, w: World, draft: LevelDraft)
    requires Consistent(config, w)
    ensures Consistent(config, Step(config, w, Author(draft)))
  {
    hide ValidateLevel, Sound;
    if draft.strategyId in w.tables.strategies {
      ValidatedIsSound(config, w.tables.strategies[draft.strategyId], draft);
    }
    var after := Step(config, w, Author(draft));
    forall id | id in after.tables.levels ensures LevelOk(config, after, id) {
      assert LevelOk(config, w, id);
    }
  }

  lemma CommitKeeps(config: Config, w: World, level: Level, expected: Strategy)
    requires Consistent(config, w)
    ensures Consistent(config, Step(config, w, Commit(level, expected)))
  {
    var after := Step(config, w, Commit(level, expected));
    forall id | id in after.tables.levels ensures LevelOk(config, after, id) {
      hide ValidateStrategyModel;
      if id in w.tables.levels {
        assert LevelOk(config, w, id);
      }
    }
  }

  lemma EditKeeps(config: Config, w: World, s: Strategy)
    requires Consistent(config, w)
    ensures Consistent(config, Step(config, w, EditMarket(s)))
  {
    hide Sound;
    var after := Step(config, w, EditMarket(s));
    forall id | id in after.tables.levels ensures LevelOk(config, after, id) {
      assert LevelOk(config, w, id);
    }
  }

  lemma RemoveKeeps(config: Config, w: World, levelId: string)
    requires Consistent(config, w)
    ensures Consistent(config, Step(config, w, Remove(levelId)))
  {
    hide Sound;
    var after := Step(config, w, Remove(levelId));
    forall id | id in after.tables.levels ensures LevelOk(config, after, id) {
      assert LevelOk(config, w, id);
    }
  }

  lemma RecordKeeps(config: Config, w: World, orderId: string, levelId: string)
    requires Consistent(config, w)
    ensures Consistent(config, Step(config, w, Record(orderId, levelId)))
  {
    hide Sound;
    var after := Step(config, w, Record(orderId, levelId));
    forall id | id in after.tables.levels ensures LevelOk(config, after, id) {
      assert LevelOk(config, w, id);
    }
  }

  /** Every interleaved step keeps every stored level at the market it was validated against. */
  lemma StepKeepsConsistent(config: Config, w: World, e: Event)
    requires Consistent(config, w)
    ensures Consistent(config, Step(config, w, e))
  {
    hide Consistent, Step;
    match e
    case Author(draft) => AuthorKeeps(config, w, draft);
    case Commit(level, expected) => CommitKeeps(config, w, level, expected);
    case EditMarket(s) => EditKeeps(config, w, s);
    case Remove(id) => RemoveKeeps(config, w, id);
    case Record(orderId, levelId) => RecordKeeps(config, w, orderId, levelId);
  }

  lemma {:induction false} AfterIsConsistent(config: Config, w: World, events: seq<Event>)
    requires Consistent(config, w)
    ensures Consistent(config, After(config, w, events))
    decreases |events|
  {
    hide Consistent, Step;
    if events != [] {
      StepKeepsConsistent(config, w, events[0]);
      AfterIsConsistent(config, Step(config, w, events[0]), events[1..]);
    }
  }

  /** Whatever the interleaving of validations, writes, market edits and deletions, a stored level's market is
      the one it was validated against, the startup check accepts it, and its decimals are those of the token it
      spends: the quote token to buy, the base token to sell. The quote asked for it spends that token for the other
      one, and its amount is read back by the venue as exactly the stored amount. */
  lemma StoredLevelsStaySound(config: Config, events: seq<Event>, id: string)
    requires id in After(config, EMPTY, events).tables.levels
    ensures var w := After(config, EMPTY, events);
            var level := w.tables.levels[id];
            && id in w.origin && level.strategyId in w.tables.strategies
            && var s := w.tables.strategies[level.strategyId];
            && s == w.origin[id] && ValidateStoredLevel(config, s, level) == Ok(())
            && var token := config.token(s.chain, if level.side.Buy? then s.quoteToken else s.baseToken);
            && token.Some? && level.amountDecimals == token.value.decimals
            && var request := QuoteRequest(s, level);
            && request.Ok? && request.value.venue == s.venue && request.value.chain == s.chain
            && request.value.slippageBps == level.slippageBps
            && request.value.tokenIn == (if level.side.Buy? then s.quoteToken else s.baseToken)
            && request.value.tokenOut == (if level.side.Buy? then s.baseToken else s.quoteToken)
            && ParseUnitsString(request.value.amount, token.value.decimals) == Ok(NatText(level.amount))
  {
    hide After, Step, ParseUnitsString, FormatUnitsString, NatText, PlacePoint, CanonicalDecimal, ValidateStrategyModel;
    AfterIsConsistent(config, EMPTY, events);
    var w := After(config, EMPTY, events);
    assert LevelOk(config, w, id);
    var level := w.tables.levels[id];
    NatTextValue(level.amount);
    FormatMeans(NatText(level.amount), level.amountDecimals);
    AmountSurvivesIff(level.amount, level.amountDecimals, level.amountDecimals);
  }

  /** No order ever points at a level that is gone. */
  lemma OrdersKeepTheirLevel(config: Config, events: seq<Event>, orderId: string)
    requires orderId in After(config, EMPTY, events).tables.orders
    ensures After(config, EMPTY, events).tables.orders[orderId] in After(config, EMPTY, events).tables.levels
  {
    hide After, Step, LevelOk;
    AfterIsConsistent(config, EMPTY, events);
  }

  /** While a level points at a market, no step changes the market. */
  lemma MarketFrozenWhileUsed(config: Config, w: World, e: Event, strategyId: string)
    requires HasLevels(w.tables, strategyId) && strategyId in w.tables.strategies
    ensures strategyId in Step(config, w, e).tables.strategies
    ensures Step(config, w, e).tables.strategies[strategyId] == w.tables.strategies[strategyId]
  {
    hide ValidateLevel;
  }

  /** An edit that really changes the market: to another row, with two different tokens, while no level stands on it. */
  predicate Changes(tables: Tables, e: Event, market: Strategy) {
    e.EditMarket? && e.s.id == market.id && e.s != market
    && Lower(e.s.baseToken) != Lower(e.s.quoteToken) && !HasLevels(tables, market.id)
  }

  predicate Current(tables: Tables, market: Strategy) {
    market.id in tables.strategies && tables.strategies[market.id] == market
  }

  predicate NeverChanged(config: Config, w: World, events: seq<Event>, market: Strategy)
    decreases |events|
  {
    events == [] || (!Changes(w.tables, events[0], market)
                     && NeverChanged(config, Step(config, w, events[0]), events[1..], market))
  }

  lemma CurrentUnlessChanged(config: Config, w: World, e: Event, market: Strategy)
    requires Current(w.tables, market)
    ensures Current(Step(config, w, e).tables, market) <==> !Changes(w.tables, e, market)
  {
    hide ValidateLevel, HasLevels;
  }

  lemma PendingStays(config: Config, w: World, e: Event, level: Level, expected: Strategy)
    requires (level, expected) in w.pending
    ensures (level, expected) in Step(config, w, e).pending
  {
    hide ValidateLevel, WithLevel, WithStrategy, WithoutLevel, WithOrder;
  }

  /** A pending level can be written exactly while its market is current. */
  lemma CommitNeedsCurrent(config: Config, w: World, level: Level, expected: Strategy)
    requires Consistent(config, w) && (level, expected) in w.pending
    ensures WithLevel(w.tables, level, expected).Ok? <==> Current(w.tables, expected)
  {
    hide ValidateStrategyModel, LevelOk;
    assert Sound(config, (level, expected).1, (level, expected).0);
  }

  /** The level can be written now and after each event of the run. */
  predicate AlwaysWritable(config: Config, w: World, events: seq<Event>, level: Level, expected: Strategy)
    decreases |events|
  {
    WithLevel(w.tables, level, expected).Ok?
    && (events != [] ==> AlwaysWritable(config, Step(config, w, events[0]), events[1..], level, expected))
  }

  /** Through any run of other clients' validations, writes, edits, deletions and orders, a level validated against
      the current market can be written all along if and only if no edit really changes that market. */
  lemma {:induction false} WritableUnlessChanged(config: Config, w: World, events: seq<Event>, level: Level,
                                                 expected: Strategy)
    requires Consistent(config, w) && (level, expected) in w.pending && Current(w.tables, expected)
    ensures AlwaysWritable(config, w, events, level, expected) <==> NeverChanged(config, w, events, expected)
    decreases |events|
  {
    hide Consistent, Step, Changes, Current, WithLevel;
    CommitNeedsCurrent(config, w, level, expected);
    if events != [] {
      var next := Step(config, w, events[0]);
      StepKeepsConsistent(config, w, events[0]);
      PendingStays(config, w, events[0], level, expected);
      CurrentUnlessChanged(config, w, events[0], expected);
      CommitNeedsCurrent(config, next, level, expected);
      if !Changes(w.tables, events[0], expected) {
        WritableUnlessChanged(config, next, events[1..], level, expected);
      }
    }
  }
}
