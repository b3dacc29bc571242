/** Exact decimal price identity: which texts are accepted, and which denote the same price. */
module DecimalPrice {
  import opened Wrappers
  import opened Digits

  /** `coefficient` times ten to the minus `places`. */
  datatype Price = Price(coefficient: nat, places: nat)

  const MAX_LENGTH := 64

  function WholePart(value: string): string { value[..IndexOf(value, '.')] }

  function Fraction(value: string): string {
    var k := IndexOf(value, '.');
    if k < |value| then value[k + 1..] else ""
  }

  predicate HasDot(value: string) { IndexOf(value, '.') < |value| }

  predicate PlainDecimal(value: string) {
    && WholePart(value) != "" && AllDigits(WholePart(value)) && AllDigits(Fraction(value))
    && (HasDot(value) ==> Fraction(value) != "")
  }

  function ParsePrice(value: string): (r: Result<Price, string>)
    ensures r.Ok? ==> PlainDecimal(value) && |value| <= MAX_LENGTH && r.value.coefficient > 0
  {
    if !(1 <= |value| <= MAX_LENGTH) || !PlainDecimal(value) then Err("paper price must be a positive decimal string")
    else
      var digits := WholePart(value) + Fraction(value);
      if IntOf(digits) == 0 then Err("paper price must be positive")
      else Ok(Price(IntOf(digits), |Fraction(value)|))
  }

  /** The texts that are prices: digits, or digits, a dot and digits, not all of them zero. */
  predicate IsPrice(value: string) {
    && 1 <= |value| <= 64
    && (|| AllDigits(value)
        || exists k | 0 < k < |value| - 1 :: value[k] == '.' && AllDigits(value[..k]) && AllDigits(value[k + 1..]))
    && exists i | 0 <= i < |value| :: '1' <= value[i] <= '9'
  }

  lemma {:induction false} PositiveDigit(s: string)
    requires AllDigits(s)
    ensures IntOf(s) > 0 <==> exists i | 0 <= i < |s| :: '1' <= s[i] <= '9'
  {
    if s != "" {
      var n := |s| - 1;
      PositiveDigit(s[..n]);
      if i :| 0 <= i < |s| && '1' <= s[i] <= '9' {
        assert i < n ==> s[..n][i] == s[i];
      }
    }
  }

  /** The dot is found where the text has it. */
  lemma DotAt(value: string, k: nat)
    requires k < |value| && value[k] == '.' && AllDigits(value[..k])
    ensures IndexOf(value, '.') == k
  {
    forall i | 0 <= i < k
      ensures value[i] != '.'
    {
      assert IsDigit(value[..k][i]);
    }
  }

  lemma PlainExactly(value: string)
    ensures PlainDecimal(value)
            <==> value != ""
                 && (|| AllDigits(value)
                     || exists k | 0 < k < |value| - 1 ::
                          value[k] == '.' && AllDigits(value[..k]) && AllDigits(value[k + 1..]))
  {
    var k := IndexOf(value, '.');
    assert value[..|value|] == value;
    if j :| 0 < j < |value| - 1 && value[j] == '.' && AllDigits(value[..j]) && AllDigits(value[j + 1..]) {
      DotAt(value, j);
    }
    if PlainDecimal(value) && HasDot(value) {
      assert value[k] == '.' && 0 < k < |value| - 1;
    }
  }

  /** Exactly these texts are accepted, and each as the number it writes. */
  lemma AcceptedExactly(value: string)
    ensures ParsePrice(value).Ok? <==> IsPrice(value)
    ensures ParsePrice(value).Ok? ==>
              && AllDigits(WholePart(value)) && AllDigits(Fraction(value))
              && ParsePrice(value).value.places == |Fraction(value)|
              && ParsePrice(value).value.coefficient
                 == IntOf(WholePart(value)) * Pow10(|Fraction(value)|) + IntOf(Fraction(value))
  {
    PlainExactly(value);
    if PlainDecimal(value) {
      var w, f := WholePart(value), Fraction(value);
      assert AllDigits(w + f);
      IntAppend(w, f);
      PositiveDigit(w + f);
      NonzeroSurvives(value, w, f);
    }
  }

  /** Taking the dot out loses no digit. */
  lemma NonzeroSurvives(value: string, w: string, f: string)
    requires value == w + f || value == w + "." + f
    ensures (exists i | 0 <= i < |w + f| :: '1' <= (w + f)[i] <= '9')
            <==> exists i | 0 <= i < |value| :: '1' <= value[i] <= '9'
  {
    if value == w + "." + f {
      if i :| 0 <= i < |w + f| && '1' <= (w + f)[i] <= '9' {
        var j := if i < |w| then i else i + 1;
        assert value[j] == (w + f)[i];
      }
      if i :| 0 <= i < |value| && '1' <= value[i] <= '9' {
        var j := if i < |w| then i else i - 1;
        assert (w + f)[j] == value[i];
      }
    }
  }

  /** Fixed-point formatting: every place is printed, no exponent is used. */
  function Formatted(p: Price): string {
    if p.places == 0 then Text(p.coefficient)
    else Text(WithoutDigits(p.coefficient, p.places)) + "." + Padded(p.coefficient, p.places)
  }

  /** The number left when the last `k` digits are dropped. */
  function WithoutDigits(n: nat, k: nat): nat {
    if k == 0 then n else WithoutDigits(n / 10, k - 1)
  }

  function WithoutDots(s: string): string {
    if s != "" && s[|s| - 1] == '.' then WithoutDots(s[..|s| - 1]) else s
  }

  function Canonical(value: string): Result<string, string> {
    match ParsePrice(value)
    case Err(e) => Err(e)
    case Ok(p) =>
      var text := Formatted(p);
      Ok(if '.' in text then WithoutDots(Trimmed(text)) else text)
  }

  /** `n` with `k` zeros after it. */
  function Shifted(n: nat, k: nat): nat {
    if k == 0 then n else 10 * Shifted(n, k - 1)
  }

  /** Brought to the same number of places, the coefficients agree. */
  predicate SameNumber(p: Price, q: Price) {
    Shifted(p.coefficient, q.places) == Shifted(q.coefficient, p.places)
  }

  // ------------------------------------------------------------ the canonical text

  function Normal(whole: nat, fraction: string): string {
    Text(whole) + (if fraction == "" then "" else "." + fraction)
  }

  lemma DigitsHaveNoDot(s: string)
    requires AllDigits(s)
    ensures '.' !in s
  {
  }

  lemma {:induction false} TrimmedAppend(head: string, tail: string)
    requires head != "" && head[|head| - 1] != '0'
    ensures Trimmed(head + tail) == head + Trimmed(tail)
  {
    if tail != "" && tail[|tail| - 1] == '0' {
      assert (head + tail)[..|head + tail| - 1] == head + tail[..|tail| - 1];
      TrimmedAppend(head, tail[..|tail| - 1]);
    } else if tail == "" {
      assert head + tail == head;
    }
  }

  lemma StripsToNormal(whole: nat, fraction: string)
    requires AllDigits(fraction)
    ensures WithoutDots(Trimmed(Text(whole) + "." + fraction)) == Normal(whole, Trimmed(fraction))
  {
    TrimmedAppend(Text(whole) + ".", fraction);
    TrimmedRest(fraction);
    DropsDot(Text(whole), Trimmed(fraction));
  }

  /** A dot that ends the text goes with it; one before digits stays. */
  lemma DropsDot(head: string, kept: string)
    requires head != "" && AllDigits(head) && AllDigits(kept)
    ensures WithoutDots(head + "." + kept) == head + (if kept == "" then "" else "." + kept)
  {
    var text := head + "." + kept;
    if kept == "" {
      assert text[..|text| - 1] == head;
    } else {
      assert text[|text| - 1] == kept[|kept| - 1];
      assert text == head + ("." + kept);
    }
  }

  lemma FormattedParts(w: string, f: string)
    requires AllDigits(w) && AllDigits(f)
    ensures AllDigits(w + f)
    ensures Formatted(Price(IntOf(w + f), |f|)) == if f == "" then Text(IntOf(w)) else Text(IntOf(w)) + "." + f
  {
    assert AllDigits(w + f);
    if f == "" {
      assert w + f == w;
    } else {
      PaddedTail(w, f);
    }
  }

  /** Canonical text is the whole part in decimal and the fraction without trailing zeros. */
  lemma CanonicalForm(value: string)
    requires ParsePrice(value).Ok?
    ensures Canonical(value) == Ok(Normal(IntOf(WholePart(value)), Trimmed(Fraction(value))))
  {
    var w, f := WholePart(value), Fraction(value);
    FormattedParts(w, f);
    if f == "" {
      DigitsHaveNoDot(Text(IntOf(w)));
      assert Text(IntOf(w)) + "" == Text(IntOf(w));
    } else {
      StripsToNormal(IntOf(w), f);
      var text := Text(IntOf(w)) + "." + f;
      assert text[|Text(IntOf(w))|] == '.';
    }
  }

  lemma {:induction false} PaddedTail(w: string, f: string)
    requires AllDigits(w) && AllDigits(f)
    ensures AllDigits(w + f) && Padded(IntOf(w + f), |f|) == f && WithoutDigits(IntOf(w + f), |f|) == IntOf(w)
  {
    if f != "" {
      var g := f[..|f| - 1];
      PaddedTail(w, g);
      assert (w + f)[..|w + f| - 1] == w + g;
      assert f == g + [f[|f| - 1]];
    } else {
      assert w + f == w;
    }
  }

  lemma NormalInjective(a: nat, f: string, b: nat, g: string)
    requires AllDigits(f) && AllDigits(g)
    ensures Normal(a, f) == Normal(b, g) <==> a == b && f == g
  {
    if Normal(a, f) == Normal(b, g) {
      NormalParts(a, f);
      NormalParts(b, g);
      TextValue(a);
      TextValue(b);
    }
  }

  lemma NormalParts(a: nat, f: string)
    requires AllDigits(f)
    ensures WholePart(Normal(a, f)) == Text(a) && Fraction(Normal(a, f)) == f
    ensures HasDot(Normal(a, f)) <==> f != ""
  {
    DigitsHaveNoDot(Text(a));
    IndexAfter(Text(a), '.', f);
    if f != "" {
      assert Text(a) + "." + f == Normal(a, f);
    } else {
      assert Normal(a, f) == Text(a);
    }
  }

  // ------------------------------------------------------------ the number behind the text

  lemma {:induction false} ShiftedZeros(s: string, k: nat)
    requires AllDigits(s)
    ensures IntOf(s + Zeros(k)) == Shifted(IntOf(s), k)
  {
    if k > 0 {
      ShiftedZeros(s, k - 1);
      assert (s + Zeros(k))[..|s| + k - 1] == s + Zeros(k - 1);
    } else {
      assert s + Zeros(0) == s;
    }
  }

  lemma {:induction false} SameTail(w: string, g: string, v: string, h: string)
    requires AllDigits(w) && AllDigits(g) && AllDigits(v) && AllDigits(h) && |g| == |h|
    ensures AllDigits(w + g) && AllDigits(v + h)
    ensures IntOf(w + g) == IntOf(v + h) <==> IntOf(w) == IntOf(v) && g == h
  {
    if g == "" {
      assert w + g == w && v + h == v;
    } else {
      var n := |g| - 1;
      SameTail(w, g[..n], v, h[..n]);
      assert (w + g)[..|w| + n] == w + g[..n] && (v + h)[..|v| + n] == v + h[..n];
      assert g == g[..n] + [g[n]] && h == h[..n] + [h[n]];
    }
  }

  lemma {:induction false} ZerosAppend(i: nat, k: nat)
    ensures Zeros(i) + Zeros(k) == Zeros(i + k)
  {
    if k > 0 {
      ZerosAppend(i, k - 1);
      assert Zeros(i) + Zeros(k) == (Zeros(i) + Zeros(k - 1)) + "0";
    }
  }

  /** Lengthened by zeros, a fraction is its trimmed form lengthened to the same places. */
  lemma Lengthened(f: string, k: nat)
    requires AllDigits(f)
    ensures f + Zeros(k) == Trimmed(f) + Zeros(|f| + k - |Trimmed(f)|)
  {
    var t := Trimmed(f);
    TrimmedRest(f);
    ZerosAppend(|f| - |t|, k);
    assert (t + Zeros(|f| - |t|)) + Zeros(k) == t + (Zeros(|f| - |t|) + Zeros(k));
  }

  lemma SameFractions(f: string, g: string)
    requires AllDigits(f) && AllDigits(g)
    ensures f + Zeros(|g|) == g + Zeros(|f|) <==> Trimmed(f) == Trimmed(g)
  {
    TrimmedZeros(f, |g|);
    TrimmedZeros(g, |f|);
    Lengthened(f, |g|);
    Lengthened(g, |f|);
  }

  /** Scaled to the same places, two numbers agree iff whole parts and trimmed fractions do. */
  lemma SameParts(w: string, f: string, v: string, g: string)
    requires AllDigits(w) && AllDigits(f) && AllDigits(v) && AllDigits(g)
    ensures AllDigits(w + f) && AllDigits(v + g)
    ensures Shifted(IntOf(w + f), |g|) == Shifted(IntOf(v + g), |f|)
            <==> IntOf(w) == IntOf(v) && Trimmed(f) == Trimmed(g)
  {
    ShiftedZeros(w + f, |g|);
    ShiftedZeros(v + g, |f|);
    assert (w + f) + Zeros(|g|) == w + (f + Zeros(|g|));
    assert (v + g) + Zeros(|f|) == v + (g + Zeros(|f|));
    SameTail(w, f + Zeros(|g|), v, g + Zeros(|f|));
    SameFractions(f, g);
  }

  /** Two accepted texts have one canonical text exactly when they denote the same number. */
  lemma CanonicalDecides(a: string, b: string)
    requires ParsePrice(a).Ok? && ParsePrice(b).Ok?
    ensures Canonical(a).Ok? && Canonical(b).Ok?
    ensures Canonical(a) == Canonical(b) <==> SameNumber(ParsePrice(a).value, ParsePrice(b).value)
  {
    CanonicalForm(a);
    CanonicalForm(b);
    TrimmedRest(Fraction(a));
    TrimmedRest(Fraction(b));
    NormalInjective(IntOf(WholePart(a)), Trimmed(Fraction(a)), IntOf(WholePart(b)), Trimmed(Fraction(b)));
    SameParts(WholePart(a), Fraction(a), WholePart(b), Fraction(b));
  }

  /** Canonical text is itself accepted, denotes the same number, and is its own canonical text. */
  lemma CanonicalIsStable(a: string)
    requires ParsePrice(a).Ok?
    ensures Canonical(a).Ok?
    ensures ParsePrice(Canonical(a).value).Ok?
    ensures SameNumber(ParsePrice(a).value, ParsePrice(Canonical(a).value).value)
    ensures Canonical(Canonical(a).value) == Canonical(a)
  {
    CanonicalForm(a);
    NormalAccepted(a);
    var c := Canonical(a).value;
    CanonicalForm(c);
    TrimmedTwice(Fraction(a));
    CanonicalDecides(a, c);
  }

  lemma TrimmedTwice(f: string)
    ensures Trimmed(Trimmed(f)) == Trimmed(f)
  {
  }

  lemma NormalAccepted(a: string)
    requires ParsePrice(a).Ok?
    ensures var c := Normal(IntOf(WholePart(a)), Trimmed(Fraction(a)));
            && ParsePrice(c).Ok?
            && IntOf(WholePart(c)) == IntOf(WholePart(a)) && Fraction(c) == Trimmed(Fraction(a))
  {
    var w, f := WholePart(a), Fraction(a);
    TrimmedRest(f);
    NormalParts(IntOf(w), Trimmed(f));
    TextValue(IntOf(w));
    TextShort(w);
    NormalPositive(w, f);
  }

  /** Trimming keeps the price positive. */
  lemma NormalPositive(w: string, f: string)
    requires AllDigits(w) && AllDigits(f) && IntOf(w + f) > 0
    ensures AllDigits(Trimmed(f)) && IntOf(Text(IntOf(w)) + Trimmed(f)) > 0
  {
    var t := Trimmed(f);
    TrimmedRest(f);
    TextValue(IntOf(w));
    SameParts(w, f, Text(IntOf(w)), t);
    TrimmedTwice(f);
    ShiftedSign(IntOf(w + f), |t|);
    ShiftedSign(IntOf(Text(IntOf(w)) + t), |f|);
  }

  lemma {:induction false} ShiftedSign(n: nat, k: nat)
    ensures Shifted(n, k) > 0 <==> n > 0
  {
    if k > 0 {
      ShiftedSign(n, k - 1);
    }
  }
}
