/** The documented price grids, decided on the exact digits of a number of any exponent. */
module InstrumentRules {
  import opened Wrappers
  import opened Digits

  datatype Classification = Stock | Etf | Derivative | OtherClass

  /** A finite decimal number: sign, digits, and the power of ten of the last digit. */
  datatype Number = Number(negative: bool, digits: string, exponent: int)

  datatype Submitted = Absent | Unreadable | Given(number: Number)

  datatype Rules = Rules(places: Option<nat>, tick: Option<nat>)

  datatype OrderType = Fixed | NoFixed | Unknown

  predicate WellFormed(n: Number) { n.digits != "" && AllDigits(n.digits) }

  predicate IsZero(n: Number)
    requires WellFormed(n)
  {
    IntOf(n.digits) == 0
  }

  /** `n < 1`, without evaluating a huge power for the non-negative exponents. */
  predicate BelowOne(n: Number)
    requires WellFormed(n)
  {
    n.negative || IsZero(n) || (n.exponent < 0 && IntOf(n.digits) < Pow10(-n.exponent))
  }

  /** The number written is `Numerator` over `Denominator`, in whole numbers. */
  function Numerator(n: Number): int
    requires WellFormed(n)
  {
    var magnitude := IntOf(n.digits) * Pow10(if n.exponent > 0 then n.exponent else 0);
    if n.negative then -magnitude else magnitude
  }

  function Denominator(n: Number): (d: int)
    ensures d >= 1
  {
    Pow10(if n.exponent < 0 then -n.exponent else 0)
  }

  /** The test that never evaluates a huge power is the comparison of the number with one. */
  lemma BelowOneExact(n: Number)
    requires WellFormed(n)
    ensures BelowOne(n) <==> Numerator(n) < Denominator(n)
  {
    var value := IntOf(n.digits);
    if n.exponent >= 0 {
      Scale(value, Pow10(n.exponent));
    }
  }

  datatype Instrument = Instrument(code: string, classification: Classification)

  function MarketOf(code: string): string { Upper(code[..IndexOf(code, '.')]) }

  function Upper(s: string): string {
    if s == "" then ""
    else [if 'a' <= s[0] <= 'z' then (s[0] as int - 32) as char else s[0]] + Upper(s[1..])
  }

  /** Decimal places and, where it is documented, the tick, as a power of ten below one. */
  function Summary(i: Instrument, price: Submitted): Result<Rules, string>
    requires price.Given? ==> WellFormed(price.number)
  {
    var dot := IndexOf(i.code, '.');
    if i.classification == OtherClass then Err("instrument classification cannot be verified")
    else if dot >= |i.code| - 1 then Err("a market-prefixed code is required")
    else
      var market := MarketOf(i.code);
      var equity := i.classification in {Stock, Etf};
      if market == "US" && equity then
        match price
        case Absent => Ok(Rules(None, None))
        case Unreadable => Err("price must be a finite number")
        case Given(n) => if BelowOne(n) then Ok(Rules(Some(4), Some(4))) else Ok(Rules(Some(2), Some(2)))
      else if market == "US" then Ok(Rules(Some(2), None))
      else if market in {"SH", "SZ"} && equity then Ok(Rules(Some(2), Some(2)))
      else Ok(Rules(Some(3), None))
  }

  // ------------------------------------------------------------ the grid test

  /** Any nonzero digit among the last `k`; all of them when there are fewer. */
  predicate AnyNonzeroTail(digits: string, k: nat) {
    var from := if k < |digits| then |digits| - k else 0;
    exists i | from <= i < |digits| :: digits[i] != '0'
  }

  function Discarded(n: Number, places: nat): nat {
    if -(places as int) - n.exponent > 0 then -(places as int) - n.exponent else 0
  }

  /** The code's decision: digits beyond the grid that are not all zero. */
  predicate OffGrid(n: Number, places: nat) {
    Discarded(n, places) > 0 && AnyNonzeroTail(n.digits, Discarded(n, places))
  }

  /** The meaning: the number is a whole number of steps of ten to the minus `places`. */
  ghost predicate OnGrid(n: Number, places: nat)
    requires WellFormed(n)
  {
    Whole(IntOf(n.digits), n.exponent + places)
  }

  ghost predicate Whole(value: nat, shift: int) {
    exists steps: nat :: Steps(value, shift, steps)
  }

  /** `value` times ten to the `shift` is `steps`, with the power on the side where it is whole. */
  predicate Steps(value: nat, shift: int, steps: nat) {
    if shift >= 0 then steps == value * Pow10(shift) else value == steps * Pow10(-shift)
  }

  lemma {:induction false} ZeroIffAllZero(s: string)
    requires AllDigits(s)
    ensures IntOf(s) == 0 <==> !AnyNonzero(s)
  {
    if s != "" {
      var n := |s| - 1;
      ZeroIffAllZero(s[..n]);
      assert forall i | 0 <= i < n :: s[..n][i] == s[i];
    }
  }

  predicate AnyNonzero(s: string) {
    exists i | 0 <= i < |s| :: s[i] != '0'
  }

  /** Dividing by a power of ten separates the last digits. */
  lemma TailIsRemainder(s: string, k: nat)
    requires AllDigits(s) && k <= |s|
    ensures AllDigits(s[|s| - k..]) && IntOf(s) % Pow10(k) == IntOf(s[|s| - k..])
  {
    var head, tail := s[..|s| - k], s[|s| - k..];
    assert head + tail == s;
    IntAppend(head, tail);
    IntBound(tail);
    QuotientRemainder(IntOf(head), Pow10(k), IntOf(tail));
  }

  lemma {:induction false} Pow10Grows(a: nat, b: nat)
    requires a <= b
    ensures Pow10(a) <= Pow10(b)
  {
    if a < b {
      Pow10Grows(a, b - 1);
    }
  }

  lemma NonzeroTail(s: string, k: nat)
    requires AllDigits(s) && k <= |s|
    ensures AnyNonzeroTail(s, k) <==> AnyNonzero(s[|s| - k..])
  {
    var tail := s[|s| - k..];
    if AnyNonzeroTail(s, k) {
      var i :| |s| - k <= i < |s| && s[i] != '0';
      assert tail[i - (|s| - k)] != '0';
    }
  }

  /** The digit test sees exactly whether the remainder below the grid is zero. */
  lemma TailDecidesRemainder(s: string, k: nat)
    requires AllDigits(s) && k >= 1
    ensures AnyNonzeroTail(s, k) <==> IntOf(s) % Pow10(k) != 0
  {
    if k <= |s| {
      NonzeroTail(s, k);
      TailIsRemainder(s, k);
      ZeroIffAllZero(s[|s| - k..]);
    } else {
      SmallRemainder(s, k);
      ZeroIffAllZero(s);
    }
  }

  lemma SmallRemainder(s: string, k: nat)
    requires AllDigits(s) && |s| <= k
    ensures IntOf(s) % Pow10(k) == IntOf(s)
  {
    IntBound(s);
    Pow10Grows(|s|, k);
    QuotientRemainder(0, Pow10(k), IntOf(s));
  }

  lemma WholeIffNoRemainder(value: nat, k: int)
    requires k >= 1
    ensures Whole(value, -k) <==> value % Pow10(k) == 0
  {
    var p := Pow10(k);
    if value % p == 0 {
      assert value == (value / p) * p;
      assert Steps(value, -k, value / p);
    }
    if Whole(value, -k) {
      var steps: nat :| Steps(value, -k, steps);
      QuotientRemainder(steps, p, 0);
    }
  }

  /** The digit test refuses exactly the numbers that are not a multiple of the step. */
  lemma GridTestIsExact(n: Number, places: nat)
    requires WellFormed(n)
    ensures OffGrid(n, places) <==> !OnGrid(n, places)
  {
    var value, shift := IntOf(n.digits), n.exponent + places;
    if shift >= 0 {
      assert Steps(value, shift, value * Pow10(shift));
    } else {
      TailDecidesRemainder(n.digits, -shift);
      WholeIffNoRemainder(value, -shift);
    }
  }

  // ------------------------------------------------------------ a whole order

  ghost predicate WholeQuantity(q: Submitted)
    requires q.Given? ==> WellFormed(q.number)
  {
    q.Given? && !q.number.negative && !IsZero(q.number) && OnGrid(q.number, 0)
  }

  /** One price field: absent, an ignored zero, or a non-negative number on its grid. */
  method CheckField(i: Instrument, kind: OrderType, limit: bool, field: Submitted) returns (ok: bool)
    requires field.Given? ==> WellFormed(field.number)
    ensures ok <==> FieldAccepted(i, kind, limit, field)
  {
    if field.Absent? { return true; }
    if field.Unreadable? { return false; }
    var n := field.number;
    if n.negative && !IsZero(n) { return false; }
    if IsZero(n) { return !(limit && kind == Fixed); }
    var rules := Summary(i, Given(n));
    if rules.Err? { return false; }
    if rules.value.places.None? { return true; }
    GridTestIsExact(n, rules.value.places.value);
    return !OffGrid(n, rules.value.places.value);
  }

  /** What acceptance of one field means. */
  ghost predicate FieldAccepted(i: Instrument, kind: OrderType, limit: bool, field: Submitted)
    requires field.Given? ==> WellFormed(field.number)
  {
    match field
    case Absent => true
    case Unreadable => false
    case Given(n) =>
      if IsZero(n) then !(limit && kind == Fixed)
      else
        && !n.negative && Summary(i, field).Ok?
        && (Summary(i, field).value.places.Some? ==> OnGrid(n, Summary(i, field).value.places.value))
  }

  method ValidateOrder(i: Instrument, kind: OrderType, qty: Submitted, price: Submitted, aux: Submitted)
    returns (r: Result<Rules, string>)
    requires qty.Given? ==> WellFormed(qty.number)
    requires price.Given? ==> WellFormed(price.number)
    requires aux.Given? ==> WellFormed(aux.number)
    ensures r.Ok? <==>
              && kind != Unknown && WholeQuantity(qty) && Summary(i, price).Ok?
              && FieldAccepted(i, kind, true, price) && FieldAccepted(i, kind, false, aux)
    ensures r.Ok? ==> r == Summary(i, price)
  {
    if kind == Unknown { return Err("not a documented submission order type"); }
    if !qty.Given? { return Err("qty must be a finite number"); }
    GridTestIsExact(qty.number, 0);
    if qty.number.negative || IsZero(qty.number) || OffGrid(qty.number, 0) {
      return Err("qty must be a positive whole number");
    }
    var rules := Summary(i, price);
    if rules.Err? { return rules; }
    var first := CheckField(i, kind, true, price);
    if !first { return Err("price"); }
    var second := CheckField(i, kind, false, aux);
    if !second { return Err("aux_price"); }
    return rules;
  }

  /** No field is no error, an unreadable or negative one is, and a zero is ignored except as a fixed limit. */
  lemma PlainFields(i: Instrument, kind: OrderType, limit: bool, field: Submitted)
    requires field.Given? ==> WellFormed(field.number)
    ensures field.Absent? ==> FieldAccepted(i, kind, limit, field)
    ensures field.Unreadable? ==> !FieldAccepted(i, kind, limit, field)
    ensures field.Given? && !IsZero(field.number) && field.number.negative ==> !FieldAccepted(i, kind, limit, field)
    ensures field.Given? && IsZero(field.number) ==>
              (FieldAccepted(i, kind, limit, field) <==> !limit || kind != Fixed)
  {
  }

  /** A US stock or fund trades on cents from one dollar up and on hundredths of cents below. */
  lemma UsEquityGrid(i: Instrument, kind: OrderType, n: Number)
    requires WellFormed(n) && !IsZero(n) && !n.negative
    requires MarketOf(i.code) == "US" && IndexOf(i.code, '.') < |i.code| - 1 && i.classification in {Stock, Etf}
    ensures FieldAccepted(i, kind, true, Given(n)) <==> OnGrid(n, if Numerator(n) < Denominator(n) then 4 else 2)
  {
    BelowOneExact(n);
  }

  /** The market is what stands before the first dot, in capitals. */
  lemma MarketPrefix(head: string, tail: string)
    requires '.' !in head
    ensures MarketOf(head + "." + tail) == Upper(head)
    ensures |Upper(head)| == |head|
    ensures forall k | 0 <= k < |head| ::
              Upper(head)[k] == if 'a' <= head[k] <= 'z' then (head[k] as int - 32) as char else head[k]
  {
    IndexAfter(head, '.', tail);
    assert (head + "." + tail)[..|head|] == head;
    UpperEach(head);
  }

  lemma {:induction false} UpperEach(s: string)
    ensures |Upper(s)| == |s|
    ensures forall k | 0 <= k < |s| ::
              Upper(s)[k] == if 'a' <= s[k] <= 'z' then (s[k] as int - 32) as char else s[k]
  {
    if s != "" {
      UpperEach(s[1..]);
      forall k | 0 <= k < |s|
        ensures Upper(s)[k] == if 'a' <= s[k] <= 'z' then (s[k] as int - 32) as char else s[k]
      {
        assert k > 0 ==> s[k] == s[1..][k - 1];
      }
    }
  }

  /**
   Everywhere else the grid does not depend on the price: hundredths for US derivatives and for
   mainland shares and funds, thousandths for the rest.
   */
  lemma OtherGrids(i: Instrument, head: string, tail: string, kind: OrderType, n: Number)
    requires WellFormed(n) && !IsZero(n) && !n.negative
    requires i.code == head + "." + tail && '.' !in head && tail != "" && i.classification != OtherClass
    requires !(Upper(head) == "US" && i.classification in {Stock, Etf})
    ensures FieldAccepted(i, kind, true, Given(n))
            <==> OnGrid(n, if Upper(head) == "US" || (Upper(head) in {"SH", "SZ"} && i.classification != Derivative)
                           then 2 else 3)
  {
    MarketPrefix(head, tail);
    IndexAfter(head, '.', tail);
  }

  /** No grid is known, and no price accepted, for an unverified class or a code without a market. */
  lemma NoGrid(i: Instrument, kind: OrderType, n: Number)
    requires WellFormed(n) && !IsZero(n)
    requires i.classification == OtherClass || '.' !in i.code || IndexOf(i.code, '.') == |i.code| - 1
    ensures !FieldAccepted(i, kind, true, Given(n))
  {
    if '.' !in i.code {
      IndexAfter(i.code, '.', "");
    }
  }
}
