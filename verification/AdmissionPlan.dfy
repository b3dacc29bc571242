/** What quota a new mutation is admitted with, and what its service method then uses. */
module AdmissionPlan {
  import opened Wrappers
  import opened BrokerDispatch
  import DispatchLease
  import Journal

  datatype WriteMethod = PlaceOrderCall | PlaceComboCall | ModifyCall | CancelCall

  /**
   A new write whose token, journal and policy checks passed. `op` is the modification named by
   the caller; `patched` says that it also sent a quantity, price or adjustment.
   */
  datatype WriteCall = WriteCall(
    how: WriteMethod,
    paper: bool,
    op: string,
    patched: bool,
    account: int,
    managedUnlock: bool,
    capped: bool,
    halted: bool)

  predicate Exposing(c: WriteCall) {
    c.how in {PlaceOrderCall, PlaceComboCall} || (c.how == ModifyCall && c.op in Journal.EXPOSING_OPS)
  }

  datatype PaperKind = PLACE | MODIFY | CANCEL

  /** Which paper mutation the call is, if paper execution supports it at all. */
  function PaperKindOf(c: WriteCall): Option<PaperKind> {
    match c.how
    case PlaceOrderCall => Some(PLACE)
    case PlaceComboCall => None
    case ModifyCall =>
      if c.op == "NORMAL" then Some(MODIFY)
      else if c.op == "CANCEL" && !c.patched then Some(CANCEL)
      else None
    case CancelCall => Some(CANCEL)
  }

  predicate Admissible(c: WriteCall) {
    && c.account > 0
    && (c.paper ==> PaperKindOf(c).Some?)
    && (!c.paper ==> !(c.halted && Exposing(c)))
  }

  function WriteOperation(c: WriteCall): Operation {
    match c.how
    case PlaceOrderCall => PlaceOrder
    case PlaceComboCall => PlaceComboOrder
    case _ => ModifyOrder
  }

  /** A placement draws on its account's placement pool, any other write on its change pool. */
  lemma WritePool(c: WriteCall)
    requires c.account > 0
    ensures Write(c).weight == 1 && Keyed(Write(c))
    ensures Key(Write(c)).account == Some(c.account)
    ensures Key(Write(c)).group
            == if c.how in {PlaceOrderCall, PlaceComboCall} then OrderPlacement else Own(ModifyOrder)
  {
  }

  function Quote(): QuotaRequest { QuotaRequest(GetMarketSnapshot, None, 1) }

  function Lookup(c: WriteCall): QuotaRequest { QuotaRequest(OrderListQuery, Some(c.account), 1) }

  function Unlock(weight: nat): QuotaRequest { QuotaRequest(UnlockTrade, None, weight) }

  function Write(c: WriteCall): QuotaRequest { QuotaRequest(WriteOperation(c), Some(c.account), 1) }

  /** The mutation branches of admission: the requests to await before dispatch, or a refusal. */
  method PrepareTradeCall(c: WriteCall) returns (r: Result<seq<QuotaRequest>, string>)
    ensures r.Ok? <==> Admissible(c)
    ensures r.Ok? ==> AllKeyed(r.value) && Covers(Quota(r.value), Uses(c)) && Exhausted(Quota(r.value), Uses(c))
  {
    if c.account <= 0 {
      return Err("Resolve the broker account before quota admission");
    }
    if c.paper {
      r := PreparePaper(c);
    } else {
      r := PrepareReal(c);
    }
  }

  method PreparePaper(c: WriteCall) returns (r: Result<seq<QuotaRequest>, string>)
    requires c.account > 0 && c.paper
    ensures r.Ok? <==> Admissible(c)
    ensures r.Ok? ==> AllKeyed(r.value) && Covers(Quota(r.value), Uses(c)) && Exhausted(Quota(r.value), Uses(c))
  {
    if c.how == PlaceComboCall {
      return Err("Combo orders are outside version 1 paper execution scope");
    }
    var kind := PaperKindOf(c);
    if kind.None? {
      return Err("Paper execution supports modifications and cancellations only");
    }
    var requests := [];
    if kind.value != CANCEL {
      requests := requests + [Quote()];
    }
    if kind.value != PLACE {
      requests := requests + [Lookup(c)];
    }
    requests := requests + [Write(c)];
    PaperPlanFits(c, requests);
    return Ok(requests);
  }

  method PrepareReal(c: WriteCall) returns (r: Result<seq<QuotaRequest>, string>)
    requires c.account > 0 && !c.paper
    ensures r.Ok? <==> Admissible(c)
    ensures r.Ok? ==> AllKeyed(r.value) && Covers(Quota(r.value), Uses(c)) && Exhausted(Quota(r.value), Uses(c))
  {
    if Exposing(c) && c.halted {
      return Err("order execution is halted");
    }
    var requests := [];
    if Exposing(c) && (c.how in {PlaceOrderCall, ModifyCall} || c.capped) {
      requests := requests + [Quote()];
    }
    if c.how == ModifyCall && Exposing(c) {
      requests := requests + [Lookup(c)];
    }
    if c.managedUnlock {
      requests := requests + [Unlock(2)];
    }
    requests := requests + [Write(c)];
    RealPlanFits(c, requests);
    return Ok(requests);
  }

  // ------------------------------------------------------------ what the service uses

  datatype Use = Call(request: QuotaRequest) | Bundle(requests: seq<QuotaRequest>)

  /** The bundle `_admit_write` reserves around a dispatch. */
  function AdmitWrite(c: WriteCall): seq<QuotaRequest> {
    if !c.paper && c.managedUnlock then [Write(c), Unlock(2)] else [Write(c)]
  }

  /** The dispatch section: reserve, unlock, write, relock. */
  function DispatchUses(c: WriteCall): seq<Use> {
    if c.managedUnlock
    then [Bundle(AdmitWrite(c)), Call(Unlock(1)), Call(Write(c)), Call(Unlock(1))]
    else [Bundle(AdmitWrite(c)), Call(Write(c))]
  }

  /** Every timed SDK call and reservation of one complete mutation, in order. */
  function Uses(c: WriteCall): seq<Use>
    requires Admissible(c)
  {
    if c.paper then
      // reserve before the admission commit, then prepare, then dispatch
      match PaperKindOf(c).value
      case PLACE => [Bundle(AdmitWrite(c)), Call(Quote()), Call(Write(c))]
      case MODIFY => [Bundle(AdmitWrite(c)), Call(Lookup(c)), Call(Quote()), Call(Write(c))]
      case CANCEL => [Bundle(AdmitWrite(c)), Call(Lookup(c)), Call(Write(c))]
    else
      match c.how
      case PlaceOrderCall => [Call(Quote())] + DispatchUses(c)
      case PlaceComboCall => (if c.capped then [Call(Quote())] else []) + DispatchUses(c)
      case ModifyCall => (if Exposing(c) then [Call(Lookup(c)), Call(Quote())] else []) + DispatchUses(c)
      case CancelCall => DispatchUses(c)
  }

  /** How many single calls of an operation a mutation makes. */
  function CallsOf(uses: seq<Use>, op: Operation): nat {
    if uses == [] then 0
    else (if uses[0].Call? && uses[0].request.operation == op then 1 else 0) + CallsOf(uses[1..], op)
  }

  function One(u: Use, op: Operation): nat { if u.Call? && u.request.operation == op then 1 else 0 }

  lemma CallsFirst(u: Use, rest: seq<Use>, op: Operation)
    ensures CallsOf([u] + rest, op) == One(u, op) + CallsOf(rest, op)
  {
    assert ([u] + rest)[1..] == rest;
  }

  lemma CallsOfTwo(a: Use, b: Use, op: Operation)
    ensures CallsOf([a, b], op) == One(a, op) + One(b, op)
  {
    assert [a, b][1..] == [b] && [b][1..] == [];
    assert CallsOf([b], op) == One(b, op) + CallsOf([], op);
  }

  lemma CallsOfThree(a: Use, b: Use, c: Use, op: Operation)
    ensures CallsOf([a, b, c], op) == One(a, op) + One(b, op) + One(c, op)
  {
    CallsOfTwo(b, c, op);
    assert [a, b, c][1..] == [b, c];
  }

  lemma CallsOfFour(a: Use, b: Use, c: Use, d: Use, op: Operation)
    ensures CallsOf([a, b, c, d], op) == One(a, op) + One(b, op) + One(c, op) + One(d, op)
  {
    CallsOfThree(b, c, d, op);
    assert [a, b, c, d][1..] == [b, c, d];
  }

  lemma DispatchCounted(c: WriteCall, op: Operation)
    ensures CallsOf(DispatchUses(c), op)
            == (if op == WriteOperation(c) then 1 else 0) + (if c.managedUnlock && op == UnlockTrade then 2 else 0)
  {
    if c.managedUnlock {
      CallsOfFour(Bundle(AdmitWrite(c)), Call(Unlock(1)), Call(Write(c)), Call(Unlock(1)), op);
    } else {
      CallsOfTwo(Bundle(AdmitWrite(c)), Call(Write(c)), op);
    }
  }

  lemma PaperCounted(c: WriteCall, op: Operation)
    requires Admissible(c) && c.paper
    ensures CallsOf(Uses(c), op)
            == (if op == WriteOperation(c) then 1 else 0)
               + (if op == GetMarketSnapshot && PaperKindOf(c) != Some(CANCEL) then 1 else 0)
               + (if op == OrderListQuery && PaperKindOf(c) != Some(PLACE) then 1 else 0)
  {
    match PaperKindOf(c).value
    case PLACE => CallsOfThree(Bundle(AdmitWrite(c)), Call(Quote()), Call(Write(c)), op);
    case MODIFY => CallsOfFour(Bundle(AdmitWrite(c)), Call(Lookup(c)), Call(Quote()), Call(Write(c)), op);
    case CANCEL => CallsOfThree(Bundle(AdmitWrite(c)), Call(Lookup(c)), Call(Write(c)), op);
  }

  lemma RealCounted(c: WriteCall, op: Operation)
    requires Admissible(c) && !c.paper
    ensures CallsOf(Uses(c), op)
            == CallsOf(DispatchUses(c), op)
               + (if op == GetMarketSnapshot
                     && (c.how == PlaceOrderCall || (c.how == PlaceComboCall && c.capped)
                         || (c.how == ModifyCall && Exposing(c))) then 1 else 0)
               + (if op == OrderListQuery && c.how == ModifyCall && Exposing(c) then 1 else 0)
  {
    RealUses(c);
    AfterFew(Call(Lookup(c)), Call(Quote()), DispatchUses(c), op);
  }

  /** A REAL mutation asks for at most an order and a price before its dispatch section. */
  lemma RealUses(c: WriteCall)
    requires Admissible(c) && !c.paper
    ensures Uses(c)
            == (if c.how == ModifyCall && Exposing(c) then [Call(Lookup(c)), Call(Quote())]
                else if c.how == PlaceOrderCall || (c.how == PlaceComboCall && c.capped) then [Call(Quote())]
                else []) + DispatchUses(c)
  {
    assert [] + DispatchUses(c) == DispatchUses(c);
  }

  lemma AfterFew(a: Use, b: Use, rest: seq<Use>, op: Operation)
    ensures CallsOf([] + rest, op) == CallsOf(rest, op)
    ensures CallsOf([b] + rest, op) == One(b, op) + CallsOf(rest, op)
    ensures CallsOf([a, b] + rest, op) == One(a, op) + One(b, op) + CallsOf(rest, op)
  {
    CallsFirst(b, rest, op);
    CallsFirst(a, [b] + rest, op);
    assert [a, b] + rest == [a] + ([b] + rest) && [] + rest == rest;
  }

  /**
   Every admitted mutation writes once; it asks for a market price unless it only reduces, for
   the order it changes, and around a REAL write with a stored credential it unlocks and locks.
   */
  lemma UsesCounted(c: WriteCall, op: Operation)
    requires Admissible(c)
    ensures var changing := c.how == ModifyCall && c.op in {"NORMAL", "ENABLE"};
            CallsOf(Uses(c), op)
            == match op
               case PlaceOrder => if c.how == PlaceOrderCall then 1 else 0
               case PlaceComboOrder => if c.how == PlaceComboCall then 1 else 0
               case ModifyOrder => if c.how in {ModifyCall, CancelCall} then 1 else 0
               case GetMarketSnapshot =>
                 if c.how == PlaceOrderCall || changing || (c.how == PlaceComboCall && c.capped) then 1 else 0
               case OrderListQuery => if (c.paper && c.how != PlaceOrderCall) || (!c.paper && changing) then 1 else 0
               case UnlockTrade => if !c.paper && c.managedUnlock then 2 else 0
               case _ => 0
  {
    if c.paper {
      PaperCounted(c, op);
    } else {
      RealCounted(c, op);
      DispatchCounted(c, op);
    }
  }

  /** Which mutations are admitted at all. */
  lemma AdmittedMutations(c: WriteCall)
    ensures Admissible(c)
            <==> && c.account > 0
                 && (c.paper ==>
                       || c.how in {PlaceOrderCall, CancelCall}
                       || (c.how == ModifyCall && (c.op == "NORMAL" || (c.op == "CANCEL" && !c.patched))))
                 && (!c.paper && c.halted ==>
                       c.how !in {PlaceOrderCall, PlaceComboCall}
                       && !(c.how == ModifyCall && c.op in {"NORMAL", "ENABLE"}))
  {
  }

  // ------------------------------------------------------------ running on a lease

  /** The lease's permits per pool. */
  ghost function Quota(rs: seq<QuotaRequest>): map<PoolKey, nat>
    requires AllKeyed(rs)
  {
    map key | key in (set i | 0 <= i < |rs| :: Key(rs[i])) :: WeightOf(rs, key)
  }

  predicate UseKeyed(u: Use) {
    match u
    case Call(r) => Keyed(r) && r.weight == 1
    case Bundle(rs) => AllKeyed(rs)
  }

  /** The use finds its permits already held, so nothing new is reserved. */
  ghost predicate Fits(held: map<PoolKey, nat>, u: Use) {
    UseKeyed(u) &&
    match u
    case Call(r) => Key(r) in held && held[Key(r)] >= 1
    case Bundle(rs) => forall i | 0 <= i < |rs| :: Key(rs[i]) in held && held[Key(rs[i])] >= WeightOf(rs, Key(rs[i]))
  }

  ghost function Rest(held: map<PoolKey, nat>, u: Use): map<PoolKey, nat>
    requires Fits(held, u)
  {
    match u
    case Call(r) => held[Key(r) := held[Key(r)] - 1]
    case Bundle(_) => held
  }

  /** Nothing is reserved anew along the uses. */
  ghost predicate Covers(held: map<PoolKey, nat>, uses: seq<Use>) {
    uses == [] || (Fits(held, uses[0]) && Covers(Rest(held, uses[0]), uses[1..]))
  }

  /** And no permit is left over after all of them. */
  ghost predicate Exhausted(held: map<PoolKey, nat>, uses: seq<Use>)
    requires Covers(held, uses)
  {
    if uses == [] then forall key | key in held :: held[key] == 0
    else Exhausted(Rest(held, uses[0]), uses[1..])
  }

  lemma CallFits(held: map<PoolKey, nat>, r: QuotaRequest, uses: seq<Use>)
    requires Keyed(r) && r.weight == 1 && Key(r) in held && held[Key(r)] >= 1
    requires Covers(held[Key(r) := held[Key(r)] - 1], uses)
    requires Exhausted(held[Key(r) := held[Key(r)] - 1], uses)
    ensures Covers(held, [Call(r)] + uses) && Exhausted(held, [Call(r)] + uses)
  {
    assert ([Call(r)] + uses)[1..] == uses;
  }

  lemma BundleFits(held: map<PoolKey, nat>, c: WriteCall, uses: seq<Use>)
    requires c.account > 0 && Covers(held, uses) && Exhausted(held, uses)
    requires Key(Write(c)) in held && held[Key(Write(c))] >= 1
    requires !c.paper && c.managedUnlock ==> Key(Unlock(1)) in held && held[Key(Unlock(1))] >= 2
    ensures Covers(held, [Bundle(AdmitWrite(c))] + uses) && Exhausted(held, [Bundle(AdmitWrite(c))] + uses)
  {
    var rs := AdmitWrite(c);
    assert ([Bundle(rs)] + uses)[1..] == uses;
    AdmitWeights(c);
  }

  lemma AdmitWeights(c: WriteCall)
    requires c.account > 0
    ensures AllKeyed(AdmitWrite(c)) && DistinctPools(AdmitWrite(c))
    ensures forall i | 0 <= i < |AdmitWrite(c)| ::
              WeightOf(AdmitWrite(c), Key(AdmitWrite(c)[i])) == AdmitWrite(c)[i].weight
  {
    forall i | 0 <= i < |AdmitWrite(c)|
      ensures WeightOf(AdmitWrite(c), Key(AdmitWrite(c)[i])) == AdmitWrite(c)[i].weight
    {
      DistinctWeight(AdmitWrite(c), i);
    }
  }

  /** Holding one write and the unlock pair, and nothing else, is exactly a dispatch. */
  lemma DispatchFits(held: map<PoolKey, nat>, c: WriteCall)
    requires c.account > 0 && !c.paper
    requires Key(Write(c)) in held && held[Key(Write(c))] == 1
    requires c.managedUnlock ==> Key(Unlock(1)) in held && held[Key(Unlock(1))] == 2
    requires forall key | key in held && key != Key(Write(c)) && !(c.managedUnlock && key == Key(Unlock(1))) ::
               held[key] == 0
    ensures Covers(held, DispatchUses(c)) && Exhausted(held, DispatchUses(c))
  {
    var w, u := Key(Write(c)), Key(Unlock(1));
    if c.managedUnlock {
      var one := held[u := 1];
      var two := one[w := 0];
      var none := two[u := 0];
      CallFits(two, Unlock(1), []);
      CallFits(one, Write(c), [Call(Unlock(1))]);
      CallFits(held, Unlock(1), [Call(Write(c)), Call(Unlock(1))]);
      BundleFits(held, c, [Call(Unlock(1)), Call(Write(c)), Call(Unlock(1))]);
    } else {
      CallFits(held, Write(c), []);
      BundleFits(held, c, [Call(Write(c))]);
    }
  }

  predicate DistinctPools(rs: seq<QuotaRequest>)
    requires AllKeyed(rs)
  {
    forall i, j | 0 <= i < j < |rs| :: Key(rs[i]) != Key(rs[j])
  }

  lemma {:induction false} DistinctWeight(rs: seq<QuotaRequest>, i: nat)
    requires AllKeyed(rs) && DistinctPools(rs) && i < |rs|
    ensures WeightOf(rs, Key(rs[i])) == rs[i].weight
  {
    var n := |rs| - 1;
    if i < n {
      assert rs[..n][i] == rs[i];
      DistinctWeight(rs[..n], i);
    } else {
      Unnamed(rs[..n], Key(rs[n]));
    }
  }

  /** Exactly these permits are held, one entry per request. */
  ghost predicate Holding(held: map<PoolKey, nat>, rs: seq<QuotaRequest>)
    requires AllKeyed(rs)
  {
    && (forall i | 0 <= i < |rs| :: Key(rs[i]) in held && held[Key(rs[i])] == rs[i].weight)
    && (forall key | key in held && held[key] > 0 :: Names(rs, key))
  }

  lemma QuotaHolding(rs: seq<QuotaRequest>)
    requires AllKeyed(rs) && DistinctPools(rs)
    ensures Holding(Quota(rs), rs)
  {
    forall i | 0 <= i < |rs|
      ensures Key(rs[i]) in Quota(rs) && Quota(rs)[Key(rs[i])] == rs[i].weight
    {
      DistinctWeight(rs, i);
    }
  }

  lemma PaperPlaceFits(held: map<PoolKey, nat>, c: WriteCall)
    requires Admissible(c) && c.paper && PaperKindOf(c) == Some(PLACE)
    requires Holding(held, [Quote(), Write(c)])
    ensures Covers(held, Uses(c)) && Exhausted(held, Uses(c))
  {
    HeldPair(held, Quote(), Write(c));
    var rest := held[Key(Quote()) := 0];
    CallFits(rest, Write(c), []);
    CallFits(held, Quote(), [Call(Write(c))]);
    BundleFits(held, c, [Call(Quote()), Call(Write(c))]);
  }

  lemma PaperCancelFits(held: map<PoolKey, nat>, c: WriteCall)
    requires Admissible(c) && c.paper && PaperKindOf(c) == Some(CANCEL)
    requires Holding(held, [Lookup(c), Write(c)])
    ensures Covers(held, Uses(c)) && Exhausted(held, Uses(c))
  {
    HeldPair(held, Lookup(c), Write(c));
    var rest := held[Key(Lookup(c)) := 0];
    CallFits(rest, Write(c), []);
    CallFits(held, Lookup(c), [Call(Write(c))]);
    BundleFits(held, c, [Call(Lookup(c)), Call(Write(c))]);
  }

  lemma PaperModifyFits(held: map<PoolKey, nat>, c: WriteCall)
    requires Admissible(c) && c.paper && PaperKindOf(c) == Some(MODIFY)
    requires Holding(held, [Quote(), Lookup(c), Write(c)])
    ensures Covers(held, Uses(c)) && Exhausted(held, Uses(c))
  {
    var rs := [Quote(), Lookup(c), Write(c)];
    assert Key(rs[0]) in held && Key(rs[1]) in held && Key(rs[2]) in held;
    var one := held[Key(Lookup(c)) := 0];
    var two := one[Key(Quote()) := 0];
    CallFits(two, Write(c), []);
    CallFits(one, Quote(), [Call(Write(c))]);
    CallFits(held, Lookup(c), [Call(Quote()), Call(Write(c))]);
    BundleFits(held, c, [Call(Lookup(c)), Call(Quote()), Call(Write(c))]);
  }

  lemma HeldPair(held: map<PoolKey, nat>, a: QuotaRequest, b: QuotaRequest)
    requires Keyed(a) && Keyed(b) && Holding(held, [a, b])
    ensures Key(a) in held && held[Key(a)] == a.weight && Key(b) in held && held[Key(b)] == b.weight
    ensures forall key | key in held && held[key] > 0 :: key == Key(a) || key == Key(b)
  {
    var rs := [a, b];
    assert Key(rs[0]) in held && Key(rs[1]) in held;
  }

  lemma PaperPlanFits(c: WriteCall, rs: seq<QuotaRequest>)
    requires Admissible(c) && c.paper
    requires rs == (if PaperKindOf(c).value != CANCEL then [Quote()] else [])
                   + (if PaperKindOf(c).value != PLACE then [Lookup(c)] else []) + [Write(c)]
    ensures AllKeyed(rs) && Covers(Quota(rs), Uses(c)) && Exhausted(Quota(rs), Uses(c))
  {
    match PaperKindOf(c).value
    case PLACE =>
      assert rs == [Quote(), Write(c)];
      QuotaHolding(rs);
      PaperPlaceFits(Quota(rs), c);
    case MODIFY =>
      assert rs == [Quote(), Lookup(c), Write(c)];
      QuotaHolding(rs);
      PaperModifyFits(Quota(rs), c);
    case CANCEL =>
      assert rs == [Lookup(c), Write(c)];
      QuotaHolding(rs);
      PaperCancelFits(Quota(rs), c);
  }

  /** The permits besides the dispatch pair: a quote, a lookup, both or neither. */
  lemma RealUsesFit(held: map<PoolKey, nat>, c: WriteCall, quoted: bool, looked: bool)
    requires Admissible(c) && !c.paper
    requires quoted == (Exposing(c) && (c.how in {PlaceOrderCall, ModifyCall} || c.capped))
    requires looked == (c.how == ModifyCall && Exposing(c))
    requires Key(Write(c)) in held && held[Key(Write(c))] == 1
    requires c.managedUnlock ==> Key(Unlock(1)) in held && held[Key(Unlock(1))] == 2
    requires quoted ==> Key(Quote()) in held && held[Key(Quote())] == 1
    requires looked ==> Key(Lookup(c)) in held && held[Key(Lookup(c))] == 1
    requires forall key | key in held && held[key] > 0 ::
               || key == Key(Write(c)) || (c.managedUnlock && key == Key(Unlock(1)))
               || (quoted && key == Key(Quote())) || (looked && key == Key(Lookup(c)))
    ensures Covers(held, Uses(c)) && Exhausted(held, Uses(c))
  {
    var quoteless := if looked then held[Key(Lookup(c)) := 0] else held;
    var bare := if quoted then quoteless[Key(Quote()) := 0] else quoteless;
    DispatchFits(bare, c);
    if quoted {
      CallFits(quoteless, Quote(), DispatchUses(c));
    }
    if looked {
      CallFits(held, Lookup(c), [Call(Quote())] + DispatchUses(c));
      assert [Call(Lookup(c))] + ([Call(Quote())] + DispatchUses(c)) == Uses(c);
    } else if !quoted {
      assert [] + DispatchUses(c) == DispatchUses(c);
    }
  }

  predicate RealPlan(c: WriteCall, rs: seq<QuotaRequest>) {
    rs == (if Exposing(c) && (c.how in {PlaceOrderCall, ModifyCall} || c.capped) then [Quote()] else [])
          + (if c.how == ModifyCall && Exposing(c) then [Lookup(c)] else [])
          + (if c.managedUnlock then [Unlock(2)] else []) + [Write(c)]
  }

  lemma KeysDiffer(c: WriteCall)
    requires c.account > 0
    ensures Keyed(Quote()) && Keyed(Lookup(c)) && Keyed(Unlock(2)) && Keyed(Write(c))
    ensures Key(Quote()) != Key(Lookup(c)) && Key(Quote()) != Key(Unlock(2)) && Key(Quote()) != Key(Write(c))
    ensures Key(Lookup(c)) != Key(Unlock(2)) && Key(Lookup(c)) != Key(Write(c)) && Key(Unlock(2)) != Key(Write(c))
  {
  }

  /** Adding requests of new pools in front, one at a time. */
  lemma AnotherPool(r: QuotaRequest, rs: seq<QuotaRequest>)
    requires Keyed(r) && AllKeyed(rs) && DistinctPools(rs) && !Names(rs, Key(r))
    ensures AllKeyed([r] + rs) && DistinctPools([r] + rs)
    ensures forall key :: Names([r] + rs, key) ==> key == Key(r) || Names(rs, key)
  {
    forall key | Names([r] + rs, key)
      ensures key == Key(r) || Names(rs, key)
    {
      var i :| 0 <= i < |[r] + rs| && Key(([r] + rs)[i]) == key;
      if i > 0 {
        assert Key(rs[i - 1]) == key;
      }
    }
  }

  lemma RealPlanKeyed(c: WriteCall, rs: seq<QuotaRequest>)
    requires c.account > 0 && RealPlan(c, rs)
    ensures AllKeyed(rs) && DistinctPools(rs)
  {
    KeysDiffer(c);
    var tail := [Write(c)];
    if c.managedUnlock {
      AnotherPool(Unlock(2), tail);
      tail := [Unlock(2)] + tail;
    }
    if c.how == ModifyCall && Exposing(c) {
      AnotherPool(Lookup(c), tail);
      tail := [Lookup(c)] + tail;
    }
    if Exposing(c) && (c.how in {PlaceOrderCall, ModifyCall} || c.capped) {
      AnotherPool(Quote(), tail);
      tail := [Quote()] + tail;
    }
    assert rs == tail;
  }

  lemma RealPlanEntries(c: WriteCall, rs: seq<QuotaRequest>)
    requires RealPlan(c, rs)
    ensures |rs| >= 1 && rs[|rs| - 1] == Write(c)
    ensures c.managedUnlock ==> |rs| >= 2 && rs[|rs| - 2] == Unlock(2)
    ensures Exposing(c) && (c.how in {PlaceOrderCall, ModifyCall} || c.capped) ==> rs[0] == Quote()
    ensures c.how == ModifyCall && Exposing(c) ==> |rs| >= 2 && rs[1] == Lookup(c)
    ensures forall i | 0 <= i < |rs| ::
              || rs[i] == Write(c) || (rs[i] == Unlock(2) && c.managedUnlock)
              || (rs[i] == Quote() && Exposing(c) && (c.how in {PlaceOrderCall, ModifyCall} || c.capped))
              || (rs[i] == Lookup(c) && c.how == ModifyCall && Exposing(c))
  {
  }

  lemma RealPlanFits(c: WriteCall, rs: seq<QuotaRequest>)
    requires Admissible(c) && !c.paper && RealPlan(c, rs)
    ensures AllKeyed(rs) && Covers(Quota(rs), Uses(c)) && Exhausted(Quota(rs), Uses(c))
  {
    RealPlanKeyed(c, rs);
    QuotaHolding(rs);
    RealHeld(c, rs, Quota(rs));
    RealUsesFit(Quota(rs), c, Exposing(c) && (c.how in {PlaceOrderCall, ModifyCall} || c.capped),
                c.how == ModifyCall && Exposing(c));
  }

  lemma RealHeld(c: WriteCall, rs: seq<QuotaRequest>, held: map<PoolKey, nat>)
    requires c.account > 0 && RealPlan(c, rs) && AllKeyed(rs) && Holding(held, rs)
    ensures var quoted := Exposing(c) && (c.how in {PlaceOrderCall, ModifyCall} || c.capped);
            var looked := c.how == ModifyCall && Exposing(c);
            && Key(Write(c)) in held && held[Key(Write(c))] == 1
            && (c.managedUnlock ==> Key(Unlock(1)) in held && held[Key(Unlock(1))] == 2)
            && (quoted ==> Key(Quote()) in held && held[Key(Quote())] == 1)
            && (looked ==> Key(Lookup(c)) in held && held[Key(Lookup(c))] == 1)
            && forall key | key in held && held[key] > 0 ::
                 || key == Key(Write(c)) || (c.managedUnlock && key == Key(Unlock(1)))
                 || (quoted && key == Key(Quote())) || (looked && key == Key(Lookup(c)))
  {
    RealPlanEntries(c, rs);
  }

  /** A mutation that stops early has reserved nothing new either. */
  lemma {:induction false} StoppedEarly(held: map<PoolKey, nat>, uses: seq<Use>, k: nat)
    requires Covers(held, uses) && k <= |uses|
    ensures Covers(held, uses[..k])
  {
    if k > 0 {
      StoppedEarly(Rest(held, uses[0]), uses[1..], k - 1);
      assert uses[..k][1..] == uses[1..][..k - 1];
    }
  }

  // ------------------------------------------------------------ the protected section

  lemma AdmitQuota(c: WriteCall)
    requires c.account > 0 && !c.paper && c.managedUnlock
    ensures Quota(AdmitWrite(c)) == map[Key(Write(c)) := 1, Key(Unlock(1)) := 2]
  {
    var rs := AdmitWrite(c);
    AdmitWeights(c);
    assert rs[0] == Write(c) && rs[1] == Unlock(2);
  }

  /** What a dispatch protects is enough for every call it then makes, lock included. */
  lemma ProtectedSectionEnough(c: WriteCall)
    requires c.account > 0 && !c.paper && c.managedUnlock
    ensures var job := DispatchLease.JitJob(Key(Write(c)), Key(Unlock(1)));
            && job.bundle == Quota(AdmitWrite(c)) && DispatchLease.Enough(job)
            && DispatchUses(c)[1..] == [Call(Unlock(1)), Call(Write(c)), Call(Unlock(1))]
            && job.calls == [Key(Unlock(1)), Key(Write(c)), Key(Unlock(1))]
  {
    AdmitQuota(c);
    DispatchLease.JitJobEnough(Key(Write(c)), Key(Unlock(1)));
  }
}
