/** Decimal digit strings and the numbers they denote. */
module Digits {
  predicate IsDigit(c: char) { '0' <= c <= '9' }

  predicate AllDigits(s: string) { forall i | 0 <= i < |s| :: IsDigit(s[i]) }

  function DigitValue(c: char): (d: nat)
    requires IsDigit(c)
    ensures d < 10
  {
    c as int - '0' as int
  }

  function DigitChar(d: nat): (c: char)
    requires d < 10
    ensures IsDigit(c) && DigitValue(c) == d
  {
    ('0' as int + d) as char
  }

  function Pow10(k: nat): (p: nat)
    ensures p >= 1
  {
    if k == 0 then 1 else 10 * Pow10(k - 1)
  }

  /** The number a digit string denotes; leading zeros do not matter. */
  function IntOf(s: string): nat
    requires AllDigits(s)
  {
    if s == "" then 0 else IntOf(s[..|s| - 1]) * 10 + DigitValue(s[|s| - 1])
  }

  /** A number in decimal, without leading zeros. */
  function Text(n: nat): (s: string)
    ensures s != "" && AllDigits(s)
  {
    if n < 10 then [DigitChar(n)] else Text(n / 10) + [DigitChar(n % 10)]
  }

  /** The last `k` digits of a number, with leading zeros. */
  function Padded(n: nat, k: nat): (s: string)
    ensures |s| == k && AllDigits(s)
  {
    if k == 0 then "" else Padded(n / 10, k - 1) + [DigitChar(n % 10)]
  }

  function Zeros(k: nat): (s: string)
    ensures |s| == k && AllDigits(s) && forall i | 0 <= i < k :: s[i] == '0'
  {
    if k == 0 then "" else Zeros(k - 1) + "0"
  }

  /** The string without its trailing zeros. */
  function Trimmed(s: string): (t: string)
    ensures |t| <= |s| && t == s[..|t|]
    ensures forall i | |t| <= i < |s| :: s[i] == '0'
    ensures t != "" ==> t[|t| - 1] != '0'
  {
    if s != "" && s[|s| - 1] == '0' then Trimmed(s[..|s| - 1]) else s
  }

  lemma {:induction false} TextValue(n: nat)
    ensures IntOf(Text(n)) == n
  {
    if n >= 10 {
      TextValue(n / 10);
      assert Text(n)[..|Text(n)| - 1] == Text(n / 10);
    }
  }

  lemma {:induction false} IntBound(s: string)
    requires AllDigits(s)
    ensures IntOf(s) < Pow10(|s|)
  {
    if s != "" {
      IntBound(s[..|s| - 1]);
    }
  }

  lemma {:induction false} IntAppend(s: string, t: string)
    requires AllDigits(s) && AllDigits(t)
    ensures AllDigits(s + t)
    ensures IntOf(s + t) == IntOf(s) * Pow10(|t|) + IntOf(t)
  {
    if t == "" {
      assert s + t == s;
    } else {
      var u := t[..|t| - 1];
      IntAppend(s, u);
      assert (s + t)[..|s + t| - 1] == s + u;
      assert Pow10(|t|) == 10 * Pow10(|u|);
      assert IntOf(s) * (10 * Pow10(|u|)) == 10 * (IntOf(s) * Pow10(|u|));
    }
  }

  lemma {:induction false} ZerosValue(k: nat)
    ensures IntOf(Zeros(k)) == 0
  {
    if k > 0 {
      ZerosValue(k - 1);
      assert Zeros(k)[..k - 1] == Zeros(k - 1);
    }
  }

  /** Quotient and remainder are what the two parts are. */
  lemma QuotientRemainder(a: nat, p: nat, r: nat)
    requires p >= 1 && r < p
    ensures (a * p + r) / p == a && (a * p + r) % p == r
  {
    var n := a * p + r;
    var q := n / p;
    assert n == q * p + n % p;
    assert (a - q) * p == n % p - r;
    Scale(a - q, p);
  }

  lemma Scale(k: int, p: int)
    requires p >= 1
    ensures (k >= 1 ==> k * p >= p) && (k <= -1 ==> k * p <= -p) && (k == 0 ==> k * p == 0)
  {
  }

  lemma {:induction false} TextWithin(n: nat, k: nat)
    requires n < Pow10(k) && k >= 1
    ensures |Text(n)| <= k
  {
    if n >= 10 {
      TextWithin(n / 10, k - 1);
    }
  }

  /** Printing a number never takes more digits than it was written with. */
  lemma {:induction false} TextShort(s: string)
    requires AllDigits(s) && s != ""
    ensures |Text(IntOf(s))| <= |s|
  {
    if |s| >= 2 {
      var u := s[..|s| - 1];
      TextShort(u);
      assert IntOf(s) / 10 == IntOf(u);
    } else {
      assert s[..0] == "";
    }
  }

  /** Appending zeros does not change what trimming leaves. */
  lemma {:induction false} TrimmedZeros(s: string, k: nat)
    requires AllDigits(s)
    ensures Trimmed(s + Zeros(k)) == Trimmed(s)
  {
    if k == 0 {
      assert s + Zeros(0) == s;
    } else {
      assert (s + Zeros(k))[..|s| + k - 1] == s + Zeros(k - 1);
      TrimmedZeros(s, k - 1);
    }
  }

  /** A trimmed string plus the zeros it lost is the original. */
  lemma TrimmedRest(s: string)
    requires AllDigits(s)
    ensures AllDigits(Trimmed(s)) && s == Trimmed(s) + Zeros(|s| - |Trimmed(s)|)
  {
  }

  /** Where a character first occurs, or the length. */
  function IndexOf(text: string, c: char): (k: nat)
    ensures k <= |text| && (forall i | 0 <= i < k :: text[i] != c) && (k < |text| ==> text[k] == c)
  {
    if text == "" || text[0] == c then 0 else 1 + IndexOf(text[1..], c)
  }

  lemma {:induction false} IndexAfter(head: string, c: char, tail: string)
    requires c !in head
    ensures IndexOf(head + [c] + tail, c) == |head| && IndexOf(head, c) == |head|
  {
    if head != "" {
      assert (head + [c] + tail)[1..] == head[1..] + [c] + tail;
      IndexAfter(head[1..], c, tail);
    }
  }
}
