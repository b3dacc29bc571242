/** Which budget an SDK operation draws on, and how a bundle of requests is merged. */
module BrokerDispatch {
  import opened Wrappers
  import RateLimit
  import RateLimitHistory

  datatype Operation =
    | GetRehab | GetCorporateActionsDividends | GetEarningsCalendar | GetOptionVolatility
    | AccInfoQuery | PositionListQuery | OrderListQuery | DealListQuery
    | HistoryOrderListQuery | HistoryDealListQuery | OrderFeeQuery
    | AccTradingInfoQuery | ComboOrderTradingInfoQuery | GetMarginRatio | GetAccCashFlow
    | UnlockTrade | PlaceOrder | PlaceComboOrder | ModifyOrder
    | GetMarketSnapshot | RequestHistoryKline | GetOptionExpirationDate | GetOptionChain
    | GetMarketState | RequestTradingDays | GetUserSecurityGroup | GetUserSecurity
    // no published frequency
    | GetHistoryKlQuota | GetAccList | GetGlobalState | GetStockBasicinfo | GetStockQuote
    | GetOrderBook | Subscribe | Unsubscribe | QuerySubscription

  datatype Scope = Gateway | Account | User
  datatype Condition = Always | Refresh | InitialPage
  datatype Group = Own(operation: Operation) | OrderPlacement | MaxTradable

  datatype OperationPolicy = OperationPolicy(
    calls: nat, scope: Scope, group: Group, condition: Condition, spacing: Option<nat>)

  datatype QuotaRequest = QuotaRequest(operation: Operation, account: Option<int>, weight: nat)

  datatype PoolKey = PoolKey(group: Group, account: Option<int>)

  predicate Untimed(op: Operation) {
    op in {GetHistoryKlQuota, GetAccList, GetGlobalState, GetStockBasicinfo, GetStockQuote,
           GetOrderBook, Subscribe, Unsubscribe, QuerySubscription}
  }

  function PolicyOf(op: Operation): OperationPolicy
    requires !Untimed(op)
  {
    match op
    case GetRehab => OperationPolicy(60, Gateway, Own(op), Always, None)
    case GetCorporateActionsDividends => OperationPolicy(30, Gateway, Own(op), Always, None)
    case GetEarningsCalendar => OperationPolicy(60, Gateway, Own(op), Always, None)
    case GetOptionVolatility => OperationPolicy(30, Gateway, Own(op), Always, None)
    case AccInfoQuery => OperationPolicy(10, Account, Own(op), Refresh, None)
    case PositionListQuery => OperationPolicy(10, Account, Own(op), Refresh, None)
    case OrderListQuery => OperationPolicy(10, Account, Own(op), Refresh, None)
    case DealListQuery => OperationPolicy(10, Account, Own(op), Refresh, None)
    case HistoryOrderListQuery => OperationPolicy(10, Account, Own(op), Always, None)
    case HistoryDealListQuery => OperationPolicy(10, Account, Own(op), Always, None)
    case OrderFeeQuery => OperationPolicy(10, Account, Own(op), Always, None)
    case AccTradingInfoQuery => OperationPolicy(10, Account, MaxTradable, Always, None)
    case ComboOrderTradingInfoQuery => OperationPolicy(10, Account, MaxTradable, Always, None)
    case GetMarginRatio => OperationPolicy(10, User, Own(op), Always, None)
    case GetAccCashFlow => OperationPolicy(20, Account, Own(op), Always, None)
    case UnlockTrade => OperationPolicy(10, User, Own(op), Always, None)
    case PlaceOrder => OperationPolicy(15, Account, OrderPlacement, Always, Some(20))
    case PlaceComboOrder => OperationPolicy(15, Account, OrderPlacement, Always, Some(20))
    case ModifyOrder => OperationPolicy(20, Account, Own(op), Always, Some(40))
    case GetMarketSnapshot => OperationPolicy(60, Gateway, Own(op), Always, None)
    case RequestHistoryKline => OperationPolicy(60, Gateway, Own(op), InitialPage, None)
    case GetOptionExpirationDate => OperationPolicy(60, Gateway, Own(op), Always, None)
    case GetOptionChain => OperationPolicy(10, Gateway, Own(op), Always, None)
    case GetMarketState => OperationPolicy(10, Gateway, Own(op), Always, None)
    case RequestTradingDays => OperationPolicy(30, Gateway, Own(op), Always, None)
    case GetUserSecurityGroup => OperationPolicy(10, Gateway, Own(op), Always, None)
    case GetUserSecurity => OperationPolicy(10, Gateway, Own(op), Always, None)
  }

  /** The quota an actual SDK call needs, always findable in a pool; an error when its account is unresolved. */
  function Request(op: Operation, account: int, refresh: bool, continued: bool)
    : (r: Result<Option<QuotaRequest>, string>)
    ensures r.Ok? && r.value.Some? ==> Keyed(r.value.value)
  {
    if Untimed(op) then Ok(None)
    else
      var policy := PolicyOf(op);
      if policy.condition == Refresh && !refresh then Ok(None)
      else if policy.condition == InitialPage && continued then Ok(None)
      else if policy.scope == Account && account <= 0
      then Err("Resolve the broker account before quota admission")
      else Ok(Some(QuotaRequest(op, if policy.scope == Account then Some(account) else None, 1)))
  }

  predicate Keyed(r: QuotaRequest) {
    !Untimed(r.operation)
    && (PolicyOf(r.operation).scope == Account ==> r.account.Some? && r.account.value > 0)
  }

  function Key(r: QuotaRequest): PoolKey
    requires Keyed(r)
  {
    var policy := PolicyOf(r.operation);
    PoolKey(policy.group, if policy.scope == Account then r.account else None)
  }

  /** A pool is created by whichever request comes first; the window is 30.1 seconds. */
  function LimiterPolicy(r: QuotaRequest): RateLimit.Policy
    requires Keyed(r)
  {
    RateLimit.Policy(PolicyOf(r.operation).calls, 30100, PolicyOf(r.operation).spacing)
  }

  /** The budget of a pool, whoever created it. */
  function Budget(key: PoolKey): (p: RateLimit.Policy)
    ensures RateLimit.ValidPolicy(p)
  {
    match key.group
    case OrderPlacement => RateLimit.Policy(15, 30100, Some(20))
    case MaxTradable => RateLimit.Policy(10, 30100, None)
    case Own(op) =>
      if Untimed(op) then RateLimit.Policy(1, 30100, None)
      else RateLimit.Policy(PolicyOf(op).calls, 30100, PolicyOf(op).spacing)
  }

  /** Operations that share a pool share its budget, so who creates the pool does not matter. */
  lemma SharedPoolsAgree(r: QuotaRequest)
    requires Keyed(r)
    ensures LimiterPolicy(r) == Budget(Key(r))
  {
  }

  /**
   Quota is needed by every operation with a published frequency, except by a cached account
   query that is not refreshed and by a later page of a history request; an account's budget
   needs the account.
   */
  lemma QuotaExactly(op: Operation, account: int, refresh: bool, continued: bool)
    ensures var r := Request(op, account, refresh, continued);
            var free := || Untimed(op)
                        || (op in {AccInfoQuery, PositionListQuery, OrderListQuery, DealListQuery} && !refresh)
                        || (op == RequestHistoryKline && continued);
            && (r == Ok(None) <==> free)
            && (r.Err? <==> !free && PolicyOf(op).scope == Account && account <= 0)
            && (r.Ok? && !free ==>
                  r.value == Some(QuotaRequest(op, if PolicyOf(op).scope == Account then Some(account) else None, 1)))
  {
  }

  predicate Placement(op: Operation) { op in {PlaceOrder, PlaceComboOrder} }

  predicate Tradable(op: Operation) { op in {AccTradingInfoQuery, ComboOrderTradingInfoQuery} }

  /**
   Two requests draw on one pool exactly when they are for one operation, both placements or
   both maximum-tradable queries, and, where the budget is an account's, for one account.
   */
  lemma OnePoolExactly(r: QuotaRequest, q: QuotaRequest)
    requires Keyed(r) && Keyed(q)
    ensures Key(r) == Key(q)
            <==> && (|| r.operation == q.operation
                     || (Placement(r.operation) && Placement(q.operation))
                     || (Tradable(r.operation) && Tradable(q.operation)))
                 && (PolicyOf(r.operation).scope == Account ==> r.account == q.account)
  {
  }

  /** No thirty seconds of a pool's life ever hold more starts than the published number of calls. */
  lemma PublishedFrequency(r: QuotaRequest, acts: seq<RateLimitHistory.Act>, times: seq<real>, from: real)
    requires Keyed(r) && RateLimitHistory.Runs(LimiterPolicy(r), acts)
    requires RateLimitHistory.Floored(times, RateLimitHistory.Exec(LimiterPolicy(r), acts).starts)
    ensures RateLimitHistory.RealCount(times, from, from + 30.0) <= PolicyOf(r.operation).calls
  {
    RateLimitHistory.RealWindowBound(LimiterPolicy(r), acts, times, from, 30.0);
  }

  /** On the order path that is fifteen placements of either kind, twenty changes, ten unlocks or locks. */
  lemma OrderPathFrequency(r: QuotaRequest)
    requires Keyed(r) && r.operation in {PlaceOrder, PlaceComboOrder, ModifyOrder, UnlockTrade}
    ensures LimiterPolicy(r).calls
            == if Placement(r.operation) then 15 else if r.operation == ModifyOrder then 20 else 10
    ensures LimiterPolicy(r).spacing
            == if Placement(r.operation) then Some(20) else if r.operation == ModifyOrder then Some(40) else None
    ensures PolicyOf(r.operation).scope == Account <==> r.operation != UnlockTrade
  {
  }

  // ------------------------------------------------------------ merging a bundle

  predicate AllKeyed(rs: seq<QuotaRequest>) {
    forall i | 0 <= i < |rs| :: Keyed(rs[i])
  }

  /** How many permits of one pool the requests ask for together. */
  function WeightOf(rs: seq<QuotaRequest>, key: PoolKey): nat
    requires AllKeyed(rs)
  {
    if rs == [] then 0
    else WeightOf(rs[..|rs| - 1], key) + (if Key(rs[|rs| - 1]) == key then rs[|rs| - 1].weight else 0)
  }

  predicate Names(rs: seq<QuotaRequest>, key: PoolKey)
    requires AllKeyed(rs)
  {
    exists i | 0 <= i < |rs| :: Key(rs[i]) == key
  }

  /** One entry per pool, holding the whole weight asked of it. */
  method Merged(rs: seq<QuotaRequest>) returns (merged: map<PoolKey, nat>)
    requires AllKeyed(rs)
    ensures forall key :: key in merged <==> Names(rs, key)
    ensures forall key | key in merged :: merged[key] == WeightOf(rs, key)
  {
    merged := map[];
    var i := 0;
    while i < |rs|
      invariant 0 <= i <= |rs|
      invariant forall key :: key in merged <==> Names(rs[..i], key)
      invariant forall key | key in merged :: merged[key] == WeightOf(rs[..i], key)
    {
      var key := Key(rs[i]);
      assert rs[..i + 1][..i] == rs[..i];
      if !Names(rs[..i], key) { Unnamed(rs[..i], key); }
      merged := merged[key := if key in merged then merged[key] + rs[i].weight else rs[i].weight];
      forall other
        ensures Names(rs[..i + 1], other) <==> Names(rs[..i], other) || other == key
      {
        if Names(rs[..i], other) {
          var j :| 0 <= j < i && Key(rs[..i][j]) == other;
          assert rs[..i + 1][j] == rs[..i][j];
        }
        assert rs[..i + 1][i] == rs[i];
      }
      i := i + 1;
    }
    assert rs[..|rs|] == rs;
  }

  lemma {:induction false} Unnamed(rs: seq<QuotaRequest>, key: PoolKey)
    requires AllKeyed(rs) && !Names(rs, key)
    ensures WeightOf(rs, key) == 0
  {
    if rs != [] {
      var n := |rs| - 1;
      assert Key(rs[n]) != key;
      forall i | 0 <= i < n
        ensures Key(rs[..n][i]) != key
      {
        assert rs[..n][i] == rs[i];
      }
      Unnamed(rs[..n], key);
    }
  }
}
