/**
 Accounting for an operation from the broker's own observations of its order. An
 operation may be seen several times (current and historical lists); nothing is
 concluded unless every sighting tells the same story.
 */
module RecoveryAccounting {
  import opened Wrappers
  import opened Journal
  import opened RecoveryCheck
  import Digits

  const TERMINAL_BROKER: set<string> :=
    {"FILLED_ALL", "CANCELLED_ALL", "CANCELLED_PART", "FAILED", "DELETED", "REJECTED"}

  const ACTIVE_BROKER: set<string> :=
    {"UNSUBMITTED", "WAITING_SUBMIT", "SUBMITTING", "SUBMIT_FAILED", "SUBMITTED", "FILLED_PART",
     "CANCELLING_PART", "CANCELLING_ALL", "DISABLED"}

  /** Combo-leg evidence as received; a malformed part is absent. */
  datatype RawLeg = RawLeg(code: Option<string>, side: Option<string>, ratio: Option<real>, position: RawPosition)

  datatype RawPosition = NoPosition | WholePosition(n: int) | BadPosition

  /** One broker sighting. Numbers that are missing, malformed or not finite are absent. */
  datatype Observation = Observation(
    orderId: string,
    remark: Option<string>,
    status: Option<string>,
    orderType: Option<string>,
    code: Option<string>,
    side: Option<string>,
    qty: Option<real>,
    price: Option<real>,
    filled: Option<real>,
    average: Option<real>,
    legs: seq<RawLeg>,
    extras: map<string, Term>)

  datatype Holding = Holding(code: string, ownScope: bool, qty: Option<real>)

  type Accounting = Result<Option<(Receipt, Facts, Resolution)>, ()>

  // ------------------------------------------------------------ combo legs

  function LegOf(raw: RawLeg): Option<Leg> {
    if raw.code.None? || raw.code.value == "" || raw.side.None? || raw.side.value !in {"BUY", "SELL"}
       || raw.ratio.None? || raw.ratio.value <= 0.0 || raw.ratio.value != raw.ratio.value.Floor as real
       || raw.position.BadPosition?
    then None
    else Some(Leg(raw.code.value, raw.side.value, raw.ratio.value.Floor,
                  if raw.position.NoPosition? then None else Some(raw.position.n)))
  }

  function LegsOf(raw: seq<RawLeg>): (r: Option<seq<Leg>>)
    ensures r.Some? ==> |r.value| == |raw|
  {
    if raw == [] then Some([])
    else
      match (LegsOf(raw[..|raw| - 1]), LegOf(raw[|raw| - 1]))
      case (Some(legs), Some(leg)) => Some(legs + [leg])
      case _ => None
  }

  /** Normalized leg identity, or None for evidence that names no legs at all. */
  function LegIdentity(raw: seq<RawLeg>): Option<seq<Leg>> {
    if raw == [] then None else LegsOf(raw)
  }

  lemma {:induction false} EachLeg(raw: seq<RawLeg>)
    ensures LegsOf(raw).Some? <==> forall i | 0 <= i < |raw| :: LegOf(raw[i]).Some?
    ensures LegsOf(raw).Some? ==> forall i | 0 <= i < |raw| :: LegOf(raw[i]) == Some(LegsOf(raw).value[i])
  {
    if raw != [] {
      var n := |raw| - 1;
      EachLeg(raw[..n]);
      assert forall i | 0 <= i < n :: raw[..n][i] == raw[i];
    }
  }

  /** A leg is readable exactly when all of its parts are, and its identity loses none of them. */
  lemma LegIsExact(a: RawLeg, b: RawLeg)
    ensures LegOf(a).Some?
            <==> && a.code.Some? && a.code.value != "" && a.side in {Some("BUY"), Some("SELL")}
                 && a.ratio.Some? && a.ratio.value > 0.0 && Whole(a.ratio.value) && !a.position.BadPosition?
    ensures LegOf(a).Some? && LegOf(b).Some? ==> (LegOf(a) == LegOf(b) <==> a == b)
  {
  }

  /** Legs are readable exactly when there are some and each one is; then each is itself. */
  lemma LegsAccepted(raw: seq<RawLeg>)
    ensures LegIdentity(raw).Some? <==> raw != [] && forall i | 0 <= i < |raw| :: LegOf(raw[i]).Some?
    ensures LegIdentity(raw).Some? ==>
              && |LegIdentity(raw).value| == |raw|
              && forall i | 0 <= i < |raw| :: LegOf(raw[i]) == Some(LegIdentity(raw).value[i])
  {
    EachLeg(raw);
  }

  method ReadLegs(raw: seq<RawLeg>) returns (r: Option<seq<Leg>>)
    ensures r == LegIdentity(raw)
    ensures r.Some? <==> raw != [] && forall i | 0 <= i < |raw| :: LegOf(raw[i]).Some?
    ensures r.Some? ==> |r.value| == |raw| && forall i | 0 <= i < |raw| :: LegOf(raw[i]) == Some(r.value[i])
  {
    LegsAccepted(raw);
    if raw == [] {
      return None;
    }
    var legs := [];
    for i := 0 to |raw|
      invariant LegsOf(raw[..i]) == Some(legs)
    {
      assert raw[..i + 1][..i] == raw[..i];
      var leg := LegOf(raw[i]);
      if leg.None? {
        BadPrefix(raw, i + 1);
        return None;
      }
      legs := legs + [leg.value];
    }
    assert raw[..|raw|] == raw;
    return Some(legs);
  }

  lemma {:induction false} BadPrefix(raw: seq<RawLeg>, i: nat)
    requires i <= |raw| && LegsOf(raw[..i]).None?
    ensures LegsOf(raw).None?
    decreases |raw| - i
  {
    if i < |raw| {
      assert raw[..i + 1][..i] == raw[..i];
      BadPrefix(raw, i + 1);
    } else {
      assert raw[..i] == raw;
    }
  }

  // ------------------------------------------------------------ correlation

  /** The order an operation is about, if it is known yet. */
  function Target(row: Row): Option<string> {
    if row.kind in {PLACE, PLACE_COMBO} then row.brokerOrderId else Some(Digits.Text(row.request.orderId))
  }

  predicate Correlated(row: Row, o: Observation) {
    || (Target(row).Some? && o.orderId == Target(row).value)
    || (row.tag.Some? && o.remark == row.tag)
  }

  /** The order has the identity the row is bound to, or is the one the caller named, or carries the row's tag. */
  predicate IsOurs(row: Row, o: Observation) {
    || (row.kind in {PLACE, PLACE_COMBO} && row.brokerOrderId == Some(o.orderId))
    || (row.kind !in {PLACE, PLACE_COMBO} && Digits.Text(row.request.orderId) == o.orderId)
    || (row.tag.Some? && row.tag == o.remark)
  }

  /** The sightings that belong to the operation, in the order the broker listed them. */
  function Matches(row: Row, observations: seq<Observation>): seq<Observation> {
    if observations == [] then []
    else (if Correlated(row, observations[0]) then [observations[0]] else []) + Matches(row, observations[1..])
  }

  lemma OursIsCorrelated(row: Row, o: Observation)
    ensures Correlated(row, o) <==> IsOurs(row, o)
  {
  }

  lemma {:induction false} MatchesExact(row: Row, observations: seq<Observation>)
    ensures forall o :: o in Matches(row, observations) <==> o in observations && IsOurs(row, o)
  {
    if observations != [] {
      MatchesExact(row, observations[1..]);
      OursIsCorrelated(row, observations[0]);
      assert observations == [observations[0]] + observations[1..];
    }
  }

  predicate RemarkAgrees(row: Row, o: Observation) {
    row.tag.Some? ==>
      && (o.remark in {None, Some("")} || o.remark == row.tag)
      && (row.brokerOrderId.None? ==> o.remark == row.tag)
  }

  predicate SameNumber(a: Option<real>, b: Option<real>) { a.Some? && a == b }

  predicate SameText(a: Option<string>, b: Option<string>) { b.Some? && a == b }

  /** One sighting tells the same story as another, and tells all of it. */
  predicate SameStory(row: Row, o: Observation, final: Observation) {
    && o.orderId == final.orderId
    && SameText(o.status, final.status) && SameText(o.orderType, final.orderType)
    && (row.kind != PLACE_COMBO ==> SameText(o.code, final.code) && SameText(o.side, final.side))
    && SameNumber(o.qty, final.qty) && SameNumber(o.price, final.price)
    && SameNumber(o.filled, final.filled) && SameNumber(o.average, final.average)
    && (row.kind == PLACE_COMBO ==>
          LegIdentity(o.legs).Some? && LegIdentity(o.legs) == LegIdentity(final.legs))
  }

  predicate Consistent(row: Row, matches: seq<Observation>) {
    && matches != []
    && forall o | o in matches :: RemarkAgrees(row, o) && SameStory(row, o, matches[0])
  }

  const ORDER_EXTRAS: set<string> :=
    {"time_in_force", "session", "aux_price", "trail_type", "trail_value", "trail_spread"}

  /** Every optional parameter the request set is confirmed by this sighting. */
  predicate ExtrasConfirmed(expected: Request, o: Observation) {
    forall name | name in ORDER_EXTRAS && name in expected.extras ::
      name in o.extras && o.extras[name] == expected.extras[name]
  }

  function Expected(row: Row): Request {
    if row.merged.Some? then row.merged.value else row.request
  }

  predicate Whole(n: real) { n == n.Floor as real }

  predicate FieldHolds(expected: Option<real>, n: real) { expected == Some(n) }

  predicate FieldUnset(expected: Option<real>, n: real) { expected.None? || expected == Some(n) }

  /** What a consistent, valid sighting proves about the operation, if anything. */
  function PaperResolution(row: Row, final: Observation): Result<Option<Resolution>, ()>
    requires final.status.Some? && final.qty.Some? && final.price.Some?
  {
    var expected := Expected(row);
    if row.kind == PLACE then
      if final.code != Some(row.request.code) || final.side != Some(row.request.side)
         || !FieldHolds(expected.qty, final.qty.value) || !FieldHolds(expected.price, final.price.value)
      then Err(())
      else Ok(Some(BROKER_CONFIRMED))
    else if final.status.value in TERMINAL_BROKER then Ok(Some(TERMINAL_RESOLVED))
    else if row.kind != MODIFY then Ok(None)
    else if expected.qty.None? then Err(())
    else if !FieldHolds(expected.qty, final.qty.value) then Ok(None)
    else if expected.price.None? then Err(())
    else if FieldHolds(expected.price, final.price.value) then Ok(Some(CURRENT_STATE_ACCOUNTED))
    else Ok(None)
  }

  predicate PaperValid(final: Observation)
    requires final.status.Some? && final.qty.Some? && final.price.Some?
    requires final.filled.Some? && final.average.Some?
  {
    && final.status.value in TERMINAL_BROKER + ACTIVE_BROKER
    && final.qty.value > 0.0 && Whole(final.qty.value) && final.price.value > 0.0
    && 0.0 <= final.filled.value <= final.qty.value && final.average.value >= 0.0
    && final.code.Some? && "US." <= final.code.value
    && final.side.Some? && final.side.value in {"BUY", "SELL"}
    && final.orderType == Some("NORMAL")
  }

  predicate RealValid(row: Row, final: Observation)
    requires final.status.Some? && final.qty.Some? && final.filled.Some? && final.average.Some?
  {
    && final.status.value in TERMINAL_BROKER + ACTIVE_BROKER
    && final.qty.value > 0.0
    && 0.0 <= final.filled.value <= final.qty.value
    && (row.kind != PLACE_COMBO ==>
          && final.average.value >= 0.0
          && final.code.Some? && final.code.value != ""
          && final.side.Some? && final.side.value != "")
  }

  function RealResolution(row: Row, matches: seq<Observation>): Result<Option<Resolution>, ()>
    requires matches != [] && matches[0].status.Some? && matches[0].qty.Some? && matches[0].price.Some?
  {
    var final := matches[0];
    var expected := Expected(row);
    if row.kind in {PLACE, PLACE_COMBO} then
      if !FieldHolds(expected.qty, final.qty.value) || !FieldHolds(expected.price, final.price.value)
         || final.orderType != Some(expected.orderType)
         || (row.kind == PLACE && (final.code != Some(row.request.code) || final.side != Some(row.request.side)))
         || (row.kind == PLACE_COMBO && LegIdentity(final.legs) != Some(expected.legs))
         || exists o | o in matches :: !ExtrasConfirmed(expected, o)
      then Err(())
      else Ok(Some(BROKER_CONFIRMED))
    else if final.status.value in TERMINAL_BROKER then Ok(Some(TERMINAL_RESOLVED))
    else if row.kind == CANCEL then Ok(None)
    else if row.request.op == "DISABLE" then
      Ok(if final.status.value == "DISABLED" then Some(CURRENT_STATE_ACCOUNTED) else None)
    else if row.request.op !in {"NORMAL", "ENABLE"} then Ok(None)
    else if row.request.op == "ENABLE" && final.status.value == "DISABLED" then Ok(None)
    else if FieldUnset(expected.qty, final.qty.value) && FieldUnset(expected.price, final.price.value)
    then Ok(Some(CURRENT_STATE_ACCOUNTED))
    else Ok(None)
  }

  // ------------------------------------------------------------ positions

  function PositionSum(code: string, items: seq<Holding>): Option<real> {
    if items == [] then Some(0.0)
    else
      var last := items[|items| - 1];
      match PositionSum(code, items[..|items| - 1])
      case None => None
      case Some(sum) =>
        if last.code != code || !last.ownScope || last.qty.None? then None
        else Some(sum + last.qty.value)
  }

  /** Holdings are summed exactly when each one is of that code, of the account, and numeric. */
  lemma {:induction false} HoldingsAccepted(code: string, items: seq<Holding>)
    ensures PositionSum(code, items).Some?
            <==> forall i | 0 <= i < |items| :: items[i].code == code && items[i].ownScope && items[i].qty.Some?
  {
    if items != [] {
      var n := |items| - 1;
      HoldingsAccepted(code, items[..n]);
      assert forall i | 0 <= i < n :: items[..n][i] == items[i];
    }
  }

  /** What the holdings add up to, whatever is wrong with some of them. */
  function Total(items: seq<Holding>): real {
    if items == [] then 0.0
    else (if items[0].qty.Some? then items[0].qty.value else 0.0) + Total(items[1..])
  }

  lemma {:induction false} TotalAppend(items: seq<Holding>, last: Holding)
    ensures Total(items + [last]) == Total(items) + (if last.qty.Some? then last.qty.value else 0.0)
  {
    if items == [] {
      assert items + [last] == [last];
    } else {
      assert (items + [last])[1..] == items[1..] + [last];
      TotalAppend(items[1..], last);
    }
  }

  /** An accepted sum is the total of all the holdings, a short one counted against a long one. */
  lemma {:induction false} SumIsTotal(code: string, items: seq<Holding>)
    ensures PositionSum(code, items).Some? ==> PositionSum(code, items).value == Total(items)
  {
    if items != [] {
      var n := |items| - 1;
      SumIsTotal(code, items[..n]);
      TotalAppend(items[..n], items[n]);
      assert items[..n] + [items[n]] == items;
    }
  }

  method SumPositions(code: string, items: seq<Holding>) returns (r: Option<real>)
    ensures r == PositionSum(code, items)
    ensures r.Some? ==> r.value == Total(items)
    ensures r.Some? <==> forall i | 0 <= i < |items| :: items[i].code == code && items[i].ownScope && items[i].qty.Some?
  {
    HoldingsAccepted(code, items);
    SumIsTotal(code, items);
    var sum := 0.0;
    for i := 0 to |items|
      invariant PositionSum(code, items[..i]) == Some(sum)
    {
      assert items[..i + 1][..i] == items[..i];
      if items[i].code != code || !items[i].ownScope || items[i].qty.None? {
        BadHolding(code, items, i + 1);
        return None;
      }
      sum := sum + items[i].qty.value;
    }
    assert items[..|items|] == items;
    return Some(sum);
  }

  lemma {:induction false} BadHolding(code: string, items: seq<Holding>, i: nat)
    requires i <= |items| && PositionSum(code, items[..i]).None?
    ensures PositionSum(code, items).None?
    decreases |items| - i
  {
    if i < |items| {
      assert items[..i + 1][..i] == items[..i];
      BadHolding(code, items, i + 1);
    } else {
      assert items[..i] == items;
    }
  }

  /** And the sum does not depend on how the broker split its list. */
  lemma {:induction false} HoldingsAdd(code: string, a: seq<Holding>, b: seq<Holding>)
    ensures PositionSum(code, a + b)
            == if PositionSum(code, a).None? || PositionSum(code, b).None? then None
               else Some(PositionSum(code, a).value + PositionSum(code, b).value)
    decreases |b|
  {
    if b == [] {
      assert a + b == a;
    } else {
      var n := |b| - 1;
      HoldingsAdd(code, a, b[..n]);
      assert (a + b)[..|a + b| - 1] == a + b[..n];
    }
  }

  /** The position of every code, or None if any code's holdings are unusable. */
  function Positions(codes: set<string>, held: map<string, seq<Holding>>): Option<map<string, real>> {
    if exists c | c in codes :: c !in held || PositionSum(c, held[c]).None? then None
    else Some(map c | c in codes :: PositionSum(c, held[c]).value)
  }

  function Codes(row: Row, final: Observation): set<string>
    requires row.kind != PLACE_COMBO ==> final.code.Some?
  {
    if row.kind == PLACE_COMBO then set leg | leg in Expected(row).legs :: leg.code
    else {final.code.value}
  }

  // ------------------------------------------------------------ accounting

  function Remaining(status: string, qty: real, filled: real): real {
    if status in TERMINAL_BROKER then 0.0 else qty - filled
  }

  function FactsOf(row: Row, final: Observation, positions: map<string, real>): Facts
    requires final.status.Some? && final.qty.Some? && final.filled.Some? && final.average.Some?
  {
    Facts(final.status.value, final.filled.value, final.average.value,
          Remaining(final.status.value, final.qty.value, final.filled.value),
          positions, row.kind in {PLACE, PLACE_COMBO})
  }

  function Account(env: Env, row: Row, matches: seq<Observation>, held: map<string, seq<Holding>>): Accounting {
    if !Consistent(row, matches) then Err(())
    else
      var final := matches[0];
      assert SameStory(row, final, final);
      if row.brokerOrderId.Some? && Some(final.orderId) != row.brokerOrderId then Err(())
      else if env == SIMULATE && !(row.kind != PLACE_COMBO && PaperValid(final)) then Err(())
      else if env == REAL && !RealValid(row, final) then Err(())
      else
        match if env == SIMULATE then PaperResolution(row, final) else RealResolution(row, matches)
        case Err(e) => Err(e)
        case Ok(None) => Ok(None)
        case Ok(Some(resolution)) =>
          match Positions(Codes(row, final), held)
          case None => Err(())
          case Some(positions) =>
            Ok(Some((Receipt(Some(final.orderId), final.status),
                     FactsOf(row, final, positions), resolution)))
  }

  method TellsSameStory(row: Row, o: Observation, final: Observation) returns (ok: bool)
    ensures ok == SameStory(row, o, final)
  {
    ok := o.orderId == final.orderId && SameText(o.status, final.status) && SameText(o.orderType, final.orderType)
          && SameNumber(o.qty, final.qty) && SameNumber(o.price, final.price)
          && SameNumber(o.filled, final.filled) && SameNumber(o.average, final.average);
    if row.kind != PLACE_COMBO {
      return ok && SameText(o.code, final.code) && SameText(o.side, final.side);
    }
    var seen := ReadLegs(o.legs);
    var wanted := ReadLegs(final.legs);
    return ok && seen.Some? && seen == wanted;
  }

  /** Walk the sightings one by one, as the recovery worker does. */
  method CheckSightings(row: Row, matches: seq<Observation>) returns (ok: bool)
    ensures ok == Consistent(row, matches)
  {
    if matches == [] {
      return false;
    }
    var final := matches[0];
    for i := 0 to |matches|
      invariant forall k | 0 <= k < i :: RemarkAgrees(row, matches[k]) && SameStory(row, matches[k], final)
    {
      var same := TellsSameStory(row, matches[i], final);
      if !RemarkAgrees(row, matches[i]) || !same {
        assert matches[i] in matches;
        return false;
      }
    }
    return true;
  }

  /** The REAL branches, with the loop that asks every sighting for the optional parameters. */
  method ResolveReal(row: Row, matches: seq<Observation>) returns (r: Result<Option<Resolution>, ()>)
    requires matches != [] && matches[0].status.Some? && matches[0].qty.Some? && matches[0].price.Some?
    ensures r == RealResolution(row, matches)
  {
    if row.kind !in {PLACE, PLACE_COMBO} {
      return RealResolution(row, matches);
    }
    var final, expected := matches[0], Expected(row);
    if !FieldHolds(expected.qty, final.qty.value) || !FieldHolds(expected.price, final.price.value)
       || final.orderType != Some(expected.orderType) {
      return Err(());
    }
    if row.kind == PLACE && (final.code != Some(row.request.code) || final.side != Some(row.request.side)) {
      return Err(());
    }
    if row.kind == PLACE_COMBO {
      var legs := ReadLegs(final.legs);
      if legs != Some(expected.legs) {
        return Err(());
      }
    }
    for i := 0 to |matches|
      invariant forall k | 0 <= k < i :: ExtrasConfirmed(expected, matches[k])
    {
      if !ExtrasConfirmed(expected, matches[i]) {
        assert matches[i] in matches;
        return Err(());
      }
    }
    return Ok(Some(BROKER_CONFIRMED));
  }

  method ReadPositions(codes: set<string>, held: map<string, seq<Holding>>)
    returns (r: Option<map<string, real>>)
    ensures r == Positions(codes, held)
  {
    var pending := codes;
    var found: map<string, real> := map[];
    while pending != {}
      invariant pending <= codes && found.Keys == codes - pending
      invariant forall c | c in found :: c in held && PositionSum(c, held[c]) == Some(found[c])
      decreases |pending|
    {
      var c :| c in pending;
      assert c in codes;
      if c !in held {
        return None;
      }
      var sum := SumPositions(c, held[c]);
      if sum.None? {
        return None;
      }
      found := found[c := sum.value];
      pending := pending - {c};
    }
    assert forall c | c in codes :: c in found;
    assert found == map c | c in codes :: PositionSum(c, held[c]).value;
    r := Some(found);
  }

  /** The whole accounting of one check, with its loops over sightings, legs and positions. */
  method AccountFor(env: Env, row: Row, matches: seq<Observation>, held: map<string, seq<Holding>>)
    returns (r: Accounting)
    ensures r == Account(env, row, matches, held)
  {
    var consistent := CheckSightings(row, matches);
    if !consistent {
      return Err(());
    }
    var final := matches[0];
    assert SameStory(row, final, final);
    if row.brokerOrderId.Some? && Some(final.orderId) != row.brokerOrderId {
      return Err(());
    }
    if env == SIMULATE && !(row.kind != PLACE_COMBO && PaperValid(final)) {
      return Err(());
    }
    if env == REAL && !RealValid(row, final) {
      return Err(());
    }
    var resolution;
    if env == SIMULATE {
      resolution := PaperResolution(row, final);
    } else {
      resolution := ResolveReal(row, matches);
    }
    if resolution.Err? {
      return Err(());
    }
    if resolution.value.None? {
      return Ok(None);
    }
    var positions := ReadPositions(Codes(row, final), held);
    if positions.None? {
      return Err(());
    }
    return Ok(Some((Receipt(Some(final.orderId), final.status),
                    FactsOf(row, final, positions.value), resolution.value.value)));
  }

  // ------------------------------------------------------------ what it guarantees

  ghost predicate SameSightings(a: seq<Observation>, b: seq<Observation>) {
    forall o :: o in a <==> o in b
  }

  lemma ConsistentAnyOrder(row: Row, a: seq<Observation>, b: seq<Observation>)
    requires SameSightings(a, b) && Consistent(row, a)
    ensures Consistent(row, b) && SameStory(row, b[0], a[0])
  {
    assert a[0] in b;
    assert b[0] in a;
  }

  lemma ResolutionAnyOrder(row: Row, a: seq<Observation>, b: seq<Observation>)
    requires SameSightings(a, b) && Consistent(row, a) && Consistent(row, b)
    requires SameStory(row, b[0], a[0])
    ensures RealResolution(row, a) == RealResolution(row, b)
    ensures row.kind != PLACE_COMBO ==> PaperResolution(row, a[0]) == PaperResolution(row, b[0])
  {
    var expected := Expected(row);
    assert (exists o | o in a :: !ExtrasConfirmed(expected, o))
      <==> (exists o | o in b :: !ExtrasConfirmed(expected, o));
  }

  /**
   Acceptance, resolution, facts and the identity and status of the receipt do not depend on
   the order or repetition of sightings.
   */
  lemma AccountAnyOrder(env: Env, row: Row, a: seq<Observation>, b: seq<Observation>,
                        held: map<string, seq<Holding>>)
    requires SameSightings(a, b)
    ensures Account(env, row, a, held) == Account(env, row, b, held)
  {
    if Consistent(row, a) {
      ConsistentAnyOrder(row, a, b);
      ResolutionAnyOrder(row, a, b);
    } else if Consistent(row, b) {
      ConsistentAnyOrder(row, b, a);
    }
  }

  /** What acceptance proves: one broker identity, one story, and balanced quantities. */
  lemma AcceptedIsAccounted(env: Env, row: Row, matches: seq<Observation>, held: map<string, seq<Holding>>)
    requires var r := Account(env, row, matches, held); r.Ok? && r.value.Some?
    ensures var (receipt, facts, resolution) := Account(env, row, matches, held).value.value;
            && (forall o | o in matches ::
                  && receipt.orderId == Some(o.orderId) && receipt.status == o.status
                  && o.status == Some(facts.status) && o.filled == Some(facts.filled)
                  && o.average == Some(facts.average) && o.qty.Some?
                  && 0.0 <= facts.filled <= o.qty.value
                  && (facts.status in TERMINAL_BROKER ==> facts.remaining == 0.0)
                  && (facts.status !in TERMINAL_BROKER ==> facts.filled + facts.remaining == o.qty.value))
            && (row.brokerOrderId.Some? ==> receipt.orderId == row.brokerOrderId)
            && resolution in {BROKER_CONFIRMED, TERMINAL_RESOLVED, CURRENT_STATE_ACCOUNTED}
            && (resolution == TERMINAL_RESOLVED ==> facts.status in TERMINAL_BROKER)
            && (facts.successProven <==> row.kind in {PLACE, PLACE_COMBO})
    ensures forall o, p | o in matches && p in matches ::
              && o.orderId == p.orderId
              && o.status.Some? && o.status == p.status && o.orderType.Some? && o.orderType == p.orderType
              && o.qty.Some? && o.qty == p.qty && o.price.Some? && o.price == p.price
              && o.filled.Some? && o.filled == p.filled && o.average.Some? && o.average == p.average
              && (row.kind != PLACE_COMBO ==> o.code.Some? && o.code == p.code && o.side.Some? && o.side == p.side)
              && (row.kind == PLACE_COMBO ==> LegIdentity(o.legs).Some? && LegIdentity(o.legs) == LegIdentity(p.legs))
    ensures forall o | o in matches :: RemarkAgrees(row, o)
  {
    assert SameStory(row, matches[0], matches[0]);
    forall o, p | o in matches && p in matches
      ensures SameStory(row, o, matches[0]) && SameStory(row, p, matches[0])
    {
    }
  }

  // ------------------------------------------------------------ exactly when, sighting by sighting

  /** The request as it was sent, or as it was admitted when nothing was. */
  function Dispatched(row: Row): Request {
    match row.merged
    case Some(sent) => sent
    case None => row.request
  }

  /** The order will not trade any more. */
  predicate IsTerminal(o: Observation) {
    o.status in {Some("FILLED_ALL"), Some("CANCELLED_ALL"), Some("CANCELLED_PART"), Some("FAILED"), Some("DELETED"),
                 Some("REJECTED")}
  }

  predicate IsActive(o: Observation) {
    o.status in {Some("UNSUBMITTED"), Some("WAITING_SUBMIT"), Some("SUBMITTING"), Some("SUBMIT_FAILED"),
                 Some("SUBMITTED"), Some("FILLED_PART"), Some("CANCELLING_PART"), Some("CANCELLING_ALL"),
                 Some("DISABLED")}
  }

  /** A remark never contradicts the row's tag, and is the tag as long as the row is bound to no order. */
  predicate TagFits(row: Row, o: Observation) {
    row.tag.Some? ==>
      if row.brokerOrderId.Some? then o.remark in {None, Some(""), row.tag} else o.remark == row.tag
  }

  /** The sighting is a complete, sensible order that may be the row's. */
  predicate Sensible(env: Env, row: Row, o: Observation) {
    && (IsTerminal(o) || IsActive(o)) && o.orderType.Some?
    && o.qty.Some? && o.qty.value > 0.0 && o.price.Some?
    && o.filled.Some? && 0.0 <= o.filled.value <= o.qty.value && o.average.Some?
    && TagFits(row, o) && (row.brokerOrderId.Some? ==> row.brokerOrderId == Some(o.orderId))
    && (if row.kind == PLACE_COMBO then env == REAL && LegIdentity(o.legs).Some?
        else o.average.value >= 0.0 && o.code.Some? && o.code.value != "" && o.side.Some? && o.side.value != "")
    && (env == SIMULATE ==>
          && o.qty.value == o.qty.value.Floor as real && o.price.value > 0.0 && o.orderType == Some("NORMAL")
          && o.code.Some? && "US." <= o.code.value && o.side in {Some("BUY"), Some("SELL")})
  }

  /** Two sightings show one order in one state. */
  predicate SameOrder(row: Row, o: Observation, p: Observation) {
    && o.orderId == p.orderId && o.status == p.status && o.orderType == p.orderType
    && o.qty == p.qty && o.price == p.price && o.filled == p.filled && o.average == p.average
    && (if row.kind == PLACE_COMBO then LegIdentity(o.legs) == LegIdentity(p.legs)
        else o.code == p.code && o.side == p.side)
  }

  predicate Trusted(env: Env, row: Row, matches: seq<Observation>) {
    && matches != []
    && (forall o | o in matches :: Sensible(env, row, o))
    && (forall o, p | o in matches && p in matches :: SameOrder(row, o, p))
  }

  /** The sighting has every term the placement was dispatched with. */
  predicate ShowsPlacement(env: Env, row: Row, o: Observation) {
    var sent := Dispatched(row);
    && o.qty.Some? && o.qty == sent.qty && o.price.Some? && o.price == sent.price
    && (row.kind == PLACE ==> o.code == Some(row.request.code) && o.side == Some(row.request.side))
    && (row.kind == PLACE_COMBO ==> LegIdentity(o.legs) == Some(sent.legs))
    && (env == REAL ==> o.orderType == Some(sent.orderType) && ShowsExtras(sent, o))
  }

  predicate ShowsExtras(sent: Request, o: Observation) {
    forall name | name in sent.extras ::
      name in {"time_in_force", "session", "aux_price", "trail_type", "trail_value", "trail_spread"} ==>
        name in o.extras && o.extras[name] == sent.extras[name]
  }

  /** The sighting shows the live order as the modification was to leave it. */
  predicate ShowsChange(env: Env, row: Row, o: Observation) {
    var sent := Dispatched(row);
    if env == SIMULATE then o.qty.Some? && o.qty == sent.qty && o.price.Some? && o.price == sent.price
    else if row.request.op == "DISABLE" then o.status == Some("DISABLED")
    else
      && row.request.op in {"NORMAL", "ENABLE"}
      && (row.request.op == "ENABLE" ==> o.status != Some("DISABLED"))
      && (sent.qty.Some? ==> o.qty == sent.qty)
      && (sent.price.Some? ==> o.price == sent.price)
  }

  /** The broker lists holdings of the code that can be summed. */
  predicate Summable(c: string, held: map<string, seq<Holding>>) {
    c in held && forall h | h in held[c] :: h.code == c && h.ownScope && h.qty.Some?
  }

  /** That holds for every code the order is about. */
  predicate PositionsKnown(row: Row, o: Observation, held: map<string, seq<Holding>>) {
    if row.kind == PLACE_COMBO then forall leg | leg in Dispatched(row).legs :: Summable(leg.code, held)
    else o.code.Some? && Summable(o.code.value, held)
  }

  /** A simulated modification that was dispatched without a term the comparison needs. */
  predicate Unreadable(env: Env, row: Row, o: Observation) {
    && env == SIMULATE && row.kind == MODIFY
    && (Dispatched(row).qty.None? || (Dispatched(row).qty == o.qty && Dispatched(row).price.None?))
  }

  predicate Resolves(r: Accounting, resolution: Resolution) {
    r.Ok? && r.value.Some? && r.value.value.2 == resolution
  }

  lemma TrustedIsConsistent(env: Env, row: Row, matches: seq<Observation>)
    ensures Trusted(env, row, matches)
            <==> && Consistent(row, matches)
                 && (row.brokerOrderId.Some? ==> Some(matches[0].orderId) == row.brokerOrderId)
                 && Sensible(env, row, matches[0])
  {
    if Consistent(row, matches) && Sensible(env, row, matches[0]) {
      forall o, p | o in matches && p in matches
        ensures SameOrder(row, o, p) && Sensible(env, row, o)
      {
        assert SameStory(row, o, matches[0]) && SameStory(row, p, matches[0]);
      }
    } else if Trusted(env, row, matches) {
      forall o | o in matches
        ensures RemarkAgrees(row, o) && SameStory(row, o, matches[0])
      {
        assert Sensible(env, row, o) && SameOrder(row, o, matches[0]) && Sensible(env, row, matches[0]);
      }
    }
  }

  lemma PositionsExact(row: Row, o: Observation, held: map<string, seq<Holding>>)
    requires row.kind != PLACE_COMBO ==> o.code.Some?
    ensures Positions(Codes(row, o), held).Some? <==> PositionsKnown(row, o, held)
  {
    forall c | c in held
      ensures Summable(c, held) <==> PositionSum(c, held[c]).Some?
    {
      HoldingsAccepted(c, held[c]);
    }
    if row.kind == PLACE_COMBO {
      forall leg | leg in Expected(row).legs
        ensures leg.code in Codes(row, o)
      {
      }
    }
  }

  /** The facts of an accounted order carry the position of every code it is about, and of no other. */
  lemma PositionsAccounted(env: Env, row: Row, matches: seq<Observation>, held: map<string, seq<Holding>>, c: string)
    requires var r := Account(env, row, matches, held); r.Ok? && r.value.Some?
    ensures matches != []
    ensures var facts := Account(env, row, matches, held).value.value.1;
            && (c in facts.positions <==>
                  if row.kind == PLACE_COMBO then exists leg :: leg in Dispatched(row).legs && leg.code == c
                  else matches[0].code == Some(c))
            && (c in facts.positions ==> c in held && facts.positions[c] == Total(held[c]))
  {
    assert SameStory(row, matches[0], matches[0]);
    if c in held {
      SumIsTotal(c, held[c]);
    }
  }

  /** Among trusted sightings any one decides. */
  lemma OneDecides(env: Env, row: Row, matches: seq<Observation>)
    requires Trusted(env, row, matches)
    ensures matches[0] in matches
    ensures forall o | o in matches ::
              && IsTerminal(o) == IsTerminal(matches[0])
              && ShowsChange(env, row, o) == ShowsChange(env, row, matches[0])
              && Unreadable(env, row, o) == Unreadable(env, row, matches[0])
  {
    assert forall o | o in matches :: SameOrder(row, o, matches[0]);
  }

  /**
   What the broker's lists prove, exactly: a placement by sightings that all have its terms,
   any other mutation by the end of its order, and a modification of a live order by sightings
   that all show what it was to leave. Nothing else is ever concluded.
   */
  lemma AccountedExactly(env: Env, row: Row, matches: seq<Observation>, held: map<string, seq<Holding>>)
    ensures var r := Account(env, row, matches, held);
            var known := Trusted(env, row, matches) && PositionsKnown(row, matches[0], held);
            var placement := row.kind in {PLACE, PLACE_COMBO};
            && (Resolves(r, BROKER_CONFIRMED) <==>
                  known && placement && forall o | o in matches :: ShowsPlacement(env, row, o))
            && (Resolves(r, TERMINAL_RESOLVED) <==>
                  known && !placement && forall o | o in matches :: IsTerminal(o))
            && (Resolves(r, CURRENT_STATE_ACCOUNTED) <==>
                  && known && row.kind == MODIFY
                  && forall o | o in matches :: !IsTerminal(o) && ShowsChange(env, row, o))
            && (r == Ok(None) <==>
                  && Trusted(env, row, matches) && !placement
                  && forall o | o in matches ::
                       !IsTerminal(o) && (row.kind == MODIFY ==>
                         !ShowsChange(env, row, o) && !Unreadable(env, row, o)))
            && (r.Ok? && r.value.Some? ==>
                  r.value.value.2 in {BROKER_CONFIRMED, TERMINAL_RESOLVED, CURRENT_STATE_ACCOUNTED})
  {
    AccountJudged(env, row, matches, held);
    if Trusted(env, row, matches) {
      if row.kind in {PLACE, PLACE_COMBO} {
        PlacementDecides(env, row, matches);
        PlacementResolution(env, row, matches);
      } else {
        OneDecides(env, row, matches);
        ChangeResolution(env, row, matches);
      }
    }
  }

  /** Only trusted sightings are judged, and only what they resolve needs positions. */
  lemma AccountJudged(env: Env, row: Row, matches: seq<Observation>, held: map<string, seq<Holding>>)
    ensures var r := Account(env, row, matches, held);
            if !Trusted(env, row, matches) || Judged(env, row, matches).Err? then r.Err?
            else if Judged(env, row, matches) == Ok(None) then r == Ok(None)
            else if PositionsKnown(row, matches[0], held)
            then Resolves(r, Judged(env, row, matches).value.value)
            else r.Err?
  {
    TrustedIsConsistent(env, row, matches);
    if Trusted(env, row, matches) {
      PositionsExact(row, matches[0], held);
    }
  }

  /** The resolution the first sighting leads to, before positions are asked for. */
  function Judged(env: Env, row: Row, matches: seq<Observation>): Result<Option<Resolution>, ()>
    requires Trusted(env, row, matches)
  {
    assert Sensible(env, row, matches[0]);
    if env == SIMULATE then PaperResolution(row, matches[0]) else RealResolution(row, matches)
  }

  lemma PlacementResolution(env: Env, row: Row, matches: seq<Observation>)
    requires Trusted(env, row, matches) && row.kind in {PLACE, PLACE_COMBO}
    ensures Judged(env, row, matches)
            == if ShowsPlacement(env, row, matches[0])
                  && (env == REAL ==> forall o | o in matches :: ExtrasConfirmed(Expected(row), o))
               then Ok(Some(BROKER_CONFIRMED)) else Err(())
  {
    assert matches[0] in matches;
    assert row.kind == PLACE_COMBO ==> env == REAL by {
      assert Sensible(env, row, matches[0]);
    }
  }

  lemma ChangeResolution(env: Env, row: Row, matches: seq<Observation>)
    requires Trusted(env, row, matches) && row.kind in {MODIFY, CANCEL}
    ensures var final := matches[0];
            Judged(env, row, matches)
            == if IsTerminal(final) then Ok(Some(TERMINAL_RESOLVED))
               else if row.kind == CANCEL then Ok(None)
               else if ShowsChange(env, row, final) then Ok(Some(CURRENT_STATE_ACCOUNTED))
               else if Unreadable(env, row, final) then Err(())
               else Ok(None)
  {
    assert Sensible(env, row, matches[0]);
  }

  lemma PlacementDecides(env: Env, row: Row, matches: seq<Observation>)
    requires Trusted(env, row, matches) && row.kind in {PLACE, PLACE_COMBO}
    ensures (forall o | o in matches :: ShowsPlacement(env, row, o))
            <==> && ShowsPlacement(env, row, matches[0])
                 && (env == REAL ==> forall o | o in matches :: ExtrasConfirmed(Expected(row), o))
  {
    assert forall o | o in matches :: SameOrder(row, o, matches[0]);
  }

  /** A placement is confirmed only by an order with exactly the terms that were dispatched. */
  lemma ConfirmedPlacementMatches(env: Env, row: Row, matches: seq<Observation>,
                                  held: map<string, seq<Holding>>, o: Observation)
    requires row.kind in {PLACE, PLACE_COMBO} && o in matches
    requires var r := Account(env, row, matches, held); r.Ok? && r.value.Some?
    ensures row.kind == PLACE ==> o.code == Some(row.request.code) && o.side == Some(row.request.side)
    ensures row.kind == PLACE_COMBO ==> env == REAL && LegIdentity(o.legs) == Some(Expected(row).legs)
    ensures o.qty == Expected(row).qty && o.price == Expected(row).price
    ensures RemarkAgrees(row, o)
    ensures env == REAL ==> o.orderType == Some(Expected(row).orderType) && ExtrasConfirmed(Expected(row), o)
    ensures env == SIMULATE ==> o.orderType == Some("NORMAL")
  {
    assert SameStory(row, o, matches[0]);
  }

  /** Finding the live target of a cancellation never accounts for the cancellation. */
  lemma LiveTargetIsNotSuccess(env: Env, row: Row, matches: seq<Observation>, held: map<string, seq<Holding>>)
    requires row.kind == CANCEL && matches != []
    requires matches[0].status.Some? && matches[0].status.value !in TERMINAL_BROKER
    ensures var r := Account(env, row, matches, held); r.Ok? ==> r.value.None?
  {
  }

  /** What the read-only queries of one check brought back. */
  datatype Report = QueriesFailed | Observed(observations: seq<Observation>, held: map<string, seq<Holding>>)

  /** The evidence a check hands to the journal, from the sightings it correlated. */
  function Gather(env: Env, row: Row, report: Report): (e: Evidence)
    ensures e.WellFormed()
    ensures e.Seen() <==> report.Observed? && Matches(row, report.observations) != []
  {
    if report.QueriesFailed? then QueryFailed
    else
      var matches := Matches(row, report.observations);
      if matches == [] then NoMatch
      else
        match Account(env, row, matches, report.held)
        case Err(_) => MatchInvalid
        case Ok(None) => MatchPending
        case Ok(Some((receipt, facts, resolution))) => MatchAccounted(receipt, facts, resolution)
  }

  /** What a check reports, exactly, in terms of the broker lists alone. */
  lemma GatheredExactly(env: Env, row: Row, report: Report)
    ensures var e := Gather(env, row, report);
            && (e == QueryFailed <==> report.QueriesFailed?)
            && (e == NoMatch <==> report.Observed? && forall o | o in report.observations :: !IsOurs(row, o))
            && (e.MatchAccounted? ==>
                  && report.Observed?
                  && var r := Account(env, row, Matches(row, report.observations), report.held);
                     r == Ok(Some((e.receipt, e.facts, e.resolution))))
            && (e == MatchPending <==>
                  && report.Observed? && Matches(row, report.observations) != []
                  && Account(env, row, Matches(row, report.observations), report.held) == Ok(None))
            && (e == MatchInvalid <==>
                  && report.Observed? && Matches(row, report.observations) != []
                  && Account(env, row, Matches(row, report.observations), report.held).Err?)
  {
    if report.Observed? {
      MatchesExact(row, report.observations);
      if Matches(row, report.observations) != [] {
        assert Matches(row, report.observations)[0] in Matches(row, report.observations);
      }
    }
  }

  method GatherEvidence(env: Env, row: Row, report: Report) returns (e: Evidence)
    ensures e == Gather(env, row, report)
  {
    if report.QueriesFailed? {
      return QueryFailed;
    }
    var matches := Matches(row, report.observations);
    if matches == [] {
      return NoMatch;
    }
    var accounted := AccountFor(env, row, matches, report.held);
    match accounted {
      case Err(_) => e := MatchInvalid;
      case Ok(None) => e := MatchPending;
      case Ok(Some((receipt, facts, resolution))) => e := MatchAccounted(receipt, facts, resolution);
    }
  }
}
