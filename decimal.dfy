/**
 * Decimal text: Python's `int(s)`, `str(n)` / `'%d' % n`, `str.zfill(9)`, and the
 * three-segment path under which a replication sequence number is published.
 */
module Decimal {
  import opened Wrappers
  import opened Text

  predicate IsDigit(c: char) { '0' <= c <= '9' }

  predicate AllDigits(s: string) {
    forall k :: 0 <= k < |s| ==> IsDigit(s[k])
  }

  function DigitValue(c: char): nat
    requires IsDigit(c)
  {
    (c as int - '0' as int) as nat
  }

  function DigitChar(d: nat): (c: char)
    requires d < 10
    ensures IsDigit(c) && DigitValue(c) == d
  {
    ('0' as int + d) as char
  }

  function Pow10(k: nat): (p: nat)
    ensures p >= 1
  {
    if k == 0 then 1 else 10 * Pow10(k - 1)
  }

  /** The number a string of decimal digits denotes (the empty string denotes 0). */
  function DigitsValue(ds: string): nat
    requires AllDigits(ds)
  {
    if ds == [] then 0 else DigitsValue(ds[..|ds| - 1]) * 10 + DigitValue(ds[|ds| - 1])
  }

  /** `str(n)` for a non-negative `n`: its digits, most significant first, without leading zeros. */
  function NatToString(n: nat): (s: string)
    ensures |s| >= 1 && AllDigits(s)
    ensures |s| > 1 ==> s[0] != '0'
  {
    if n < 10 then [DigitChar(n)] else NatToString(n / 10) + [DigitChar(n % 10)]
  }

  /** `str(n)` and `'%d' % n` for any integer. */
  function IntToString(n: int): string {
    if n < 0 then "-" + NatToString(-n) else NatToString(n)
  }

  /**
   * Python 2's `int(s)` on a `str`: surrounding blanks are ignored, then an optional
   * sign, blanks (skipped after a sign as `PyOS_strtol` does), and one or more decimal
   * digits; anything else raises `ValueError` (here `None`).
   */
  function ParseInt(s: string): Option<int> {
    if s != [] && IsSpace(s[0]) then ParseInt(s[1..]) else ParseSigned(RStrip(s))
  }

  /** `int(s)` reads what `s.strip()` leaves. */
  lemma {:induction false} ParseIntOfStrip(s: string)
    ensures ParseInt(s) == ParseSigned(Strip(s))
  {
    if s != [] && IsSpace(s[0]) {
      ParseIntOfStrip(s[1..]);
    }
  }

  predicate IsSign(c: char) { c == '-' || c == '+' }

  /** The digits of a stripped `int()` text: what follows the sign and the blanks after it. */
  function Magnitude(t: string): string {
    if t != [] && IsSign(t[0]) then LStrip(t[1..]) else t
  }

  /** A stripped text `int()` accepts: its magnitude is one or more decimal digits. */
  predicate IsIntText(t: string) {
    Magnitude(t) != [] && AllDigits(Magnitude(t))
  }

  /** `v` negated when the text starts with a minus sign. */
  function Signed(t: string, v: nat): int {
    if t != [] && t[0] == '-' then -(v as int) else v as int
  }

  /** `int(t)` once the surrounding blanks are gone. */
  function ParseSigned(t: string): Option<int> {
    if t != [] && IsSign(t[0]) then
      var ds := LStrip(t[1..]);
      if ds != [] && AllDigits(ds) then
        var v: int := DigitsValue(ds);
        Some(if t[0] == '-' then -v else v)
      else None
    else if t != [] && AllDigits(t) then Some(DigitsValue(t))
    else None
  }

  /** `int(s)` succeeds exactly on the texts whose stripped form is a sign, blanks and digits, and gives their signed value. */
  lemma ParseIntGrammar(s: string)
    ensures ParseInt(s).Some? <==> IsIntText(Strip(s))
    ensures ParseInt(s).Some? ==> ParseInt(s).value == Signed(Strip(s), DigitsValue(Magnitude(Strip(s))))
  {
    ParseIntOfStrip(s);
  }

  predicate AllSpace(s: string) {
    forall k :: 0 <= k < |s| ==> IsSpace(s[k])
  }

  lemma {:induction false} ParseIntSkipsLead(lead: string, rest: string)
    requires AllSpace(lead)
    ensures ParseInt(lead + rest) == ParseInt(rest)
    decreases |lead|
  {
    if lead == [] {
      assert lead + rest == rest;
    } else {
      assert (lead + rest)[0] == lead[0];
      assert (lead + rest)[1..] == lead[1..] + rest;
      ParseIntSkipsLead(lead[1..], rest);
    }
  }

  lemma {:induction false} RStripTrail(body: string, trail: string)
    requires body != [] && !IsSpace(body[|body| - 1]) && AllSpace(trail)
    ensures RStrip(body + trail) == body
    decreases |trail|
  {
    if trail == [] {
      assert body + trail == body;
    } else {
      var s := body + trail;
      assert s[..|s| - 1] == body + trail[..|trail| - 1];
      RStripTrail(body, trail[..|trail| - 1]);
    }
  }

  lemma {:induction false} LStripLead(gap: string, ds: string)
    requires AllSpace(gap) && (ds == [] || !IsSpace(ds[0]))
    ensures LStrip(gap + ds) == ds
    decreases |gap|
  {
    if gap == [] {
      assert gap + ds == ds;
    } else {
      assert (gap + ds)[1..] == gap[1..] + ds;
      LStripLead(gap[1..], ds);
    }
  }

  /**
   * The texts `int()` accepts, built up: blanks, an optional sign, blanks only after
   * a sign, one or more digits, blanks. So `int('- 5') == -5` and `int('+\t7') == 7`.
   */
  lemma IntTextReads(lead: string, sign: string, gap: string, ds: string, trail: string)
    requires AllSpace(lead) && AllSpace(gap) && AllSpace(trail)
    requires sign == "" || sign == "-" || sign == "+"
    requires sign == "" ==> gap == ""
    requires ds != [] && AllDigits(ds)
    ensures ParseInt(lead + sign + gap + ds + trail) ==
      Some(if sign == "-" then -(DigitsValue(ds) as int) else DigitsValue(ds) as int)
  {
    var body := sign + gap + ds;
    assert lead + sign + gap + ds + trail == lead + (body + trail);
    ParseIntSkipsLead(lead, body + trail);
    assert body[|body| - 1] == ds[|ds| - 1];
    RStripTrail(body, trail);
    assert (body + trail)[0] == body[0];
    if sign == "" {
      assert body == ds;
    } else {
      assert body[1..] == gap + ds;
      LStripLead(gap, ds);
    }
  }

  lemma {:induction false} DigitsValueOfNatToString(n: nat)
    ensures DigitsValue(NatToString(n)) == n
  {
    if n >= 10 {
      var s := NatToString(n);
      assert s[..|s| - 1] == NatToString(n / 10);
      DigitsValueOfNatToString(n / 10);
    }
  }

  lemma AllDigitsNoSpace(s: string)
    requires AllDigits(s)
    ensures NoSpace(s)
  {
  }

  lemma ParseIntOfDigits(ds: string)
    requires ds != [] && AllDigits(ds)
    ensures ParseInt(ds) == Some(DigitsValue(ds))
  {
    AllDigitsNoSpace(ds);
    StripNoSpace(ds);
    ParseIntOfStrip(ds);
    assert !(ds[0] == '-' || ds[0] == '+');
  }

  lemma ParseIntOfNegatedDigits(ds: string)
    requires ds != [] && AllDigits(ds)
    ensures ParseInt("-" + ds) == Some(-(DigitsValue(ds) as int))
  {
    var s := "-" + ds;
    assert NoSpace(s) by {
      forall k | 0 <= k < |s| ensures !IsSpace(s[k]) {
        if k > 0 { assert s[k] == ds[k - 1]; }
      }
    }
    StripNoSpace(s);
    ParseIntOfStrip(s);
    assert s[1..] == ds;
    assert ParseSigned(s) == Some(-(DigitsValue(ds) as int));
  }

  lemma {:induction false} ParseIntToStringNegative(n: int)
    requires n < 0
    ensures ParseInt(IntToString(n)) == Some(n)
  {
    var m: nat := -n;
    var d := NatToString(m);
    DigitsValueOfNatToString(m);
    ParseIntOfNegatedDigits(d);
    assert ParseInt("-" + d) == Some(n);
    assert IntToString(n) == "-" + d;
  }

  lemma {:induction false} ParseIntToStringNatural(n: nat)
    ensures ParseInt(IntToString(n)) == Some(n as int)
  {
    var d := NatToString(n);
    DigitsValueOfNatToString(n);
    ParseIntOfDigits(d);
    assert IntToString(n) == d;
  }

  /** `int(str(n)) == n`: the decimal text of an integer reads back as that integer. */
  lemma ParseIntToString(n: int)
    ensures ParseInt(IntToString(n)) == Some(n)
  {
    if n < 0 {
      ParseIntToStringNegative(n);
    } else {
      ParseIntToStringNatural(n);
    }
  }

  function Zeros(k: nat): (z: string)
    ensures |z| == k && AllDigits(z)
    ensures forall i :: 0 <= i < k ==> z[i] == '0'
  {
    if k == 0 then [] else "0" + Zeros(k - 1)
  }

  /**
   * `s.zfill(width)`: pads with zeros on the left up to `width` characters, keeping
   * a leading sign in front; text already that long is returned unchanged.
   */
  function ZFill(s: string, width: nat): (z: string)
    ensures |z| == if |s| >= width then |s| else width
  {
    if |s| >= width then s
    else if s != [] && (s[0] == '+' || s[0] == '-') then [s[0]] + Zeros(width - |s|) + s[1..]
    else Zeros(width - |s|) + s
  }

  /** Python's slice `s[i:j]` for `0 <= i <= j`: indices past the end are clamped. */
  function Slice(s: string, i: nat, j: nat): (r: string)
    requires i <= j
    ensures |r| <= j - i
  {
    if j <= |s| then s[i..j] else if i <= |s| then s[i..] else []
  }

  /** The `AAA/BBB/CCC` path of a sequence number in a replication directory. */
  datatype SequencePath = SequencePath(top: string, middle: string, leaf: string)

  /** `sqnStr = s.zfill(9)` cut as `sqnStr[0:3]`, `sqnStr[3:6]`, `sqnStr[6:9]`. */
  function PathOf(s: string): SequencePath {
    var z := ZFill(s, 9);
    SequencePath(Slice(z, 0, 3), Slice(z, 3, 6), Slice(z, 6, 9))
  }

  lemma {:induction false} NatToStringShort(n: nat, k: nat)
    requires k >= 1 && n < Pow10(k)
    ensures |NatToString(n)| <= k
    decreases k
  {
    if n >= 10 {
      assert Pow10(1) == 10;
      assert k >= 2;
      assert n / 10 < Pow10(k - 1);
      NatToStringShort(n / 10, k - 1);
    }
  }

  lemma {:induction false} NatToStringLong(n: nat, k: nat)
    requires n >= Pow10(k)
    ensures |NatToString(n)| >= k + 1
    decreases k
  {
    if k > 0 {
      assert n >= 10;
      assert n / 10 >= Pow10(k - 1);
      NatToStringLong(n / 10, k - 1);
    }
  }

  lemma {:induction false} LeadingZerosAddNothing(k: nat, ds: string)
    requires AllDigits(ds)
    ensures DigitsValue(Zeros(k) + ds) == DigitsValue(ds)
    decreases |ds|, k
  {
    var s := Zeros(k) + ds;
    if ds == [] {
      assert s == Zeros(k);
      if k > 0 {
        assert s[..|s| - 1] == Zeros(k - 1) + [];
        LeadingZerosAddNothing(k - 1, []);
      }
    } else {
      assert s[..|s| - 1] == Zeros(k) + ds[..|ds| - 1];
      LeadingZerosAddNothing(k, ds[..|ds| - 1]);
    }
  }

  /** Cutting nine characters at 3 and 6 gives three pieces of three that make them up again. */
  lemma SlicesOfNine(z: string)
    requires |z| == 9
    ensures |Slice(z, 0, 3)| == |Slice(z, 3, 6)| == |Slice(z, 6, 9)| == 3
    ensures Slice(z, 0, 3) + Slice(z, 3, 6) + Slice(z, 6, 9) == z
  {
    assert z[0..3] + z[3..6] + z[6..9] == z;
  }

  lemma AllDigitsConcat(a: string, b: string)
    requires AllDigits(a) && AllDigits(b)
    ensures AllDigits(a + b)
  {
  }

  /** The nine-digit zero-filled text of a sequence number below 10^9, and the number it denotes. */
  lemma ZFillNine(n: nat)
    requires n < 1000000000
    ensures |ZFill(NatToString(n), 9)| == 9
    ensures AllDigits(ZFill(NatToString(n), 9))
    ensures DigitsValue(ZFill(NatToString(n), 9)) == n
  {
    var s := NatToString(n);
    assert Pow10(9) == 1000000000;
    NatToStringShort(n, 9);
    assert ZFill(s, 9) == Zeros(9 - |s|) + s;
    AllDigitsConcat(Zeros(9 - |s|), s);
    LeadingZerosAddNothing(9 - |s|, s);
    DigitsValueOfNatToString(n);
  }

  /**
   * For a sequence number below 10^9 the path is three segments of three digits
   * each which, read together, denote the number again.
   */
  lemma SequencePathDenotes(n: nat)
    requires n < 1000000000
    ensures var p := PathOf(NatToString(n));
      |p.top| == |p.middle| == |p.leaf| == 3 &&
      AllDigits(p.top + p.middle + p.leaf) &&
      p.top + p.middle + p.leaf == ZFill(NatToString(n), 9) &&
      DigitsValue(p.top + p.middle + p.leaf) == n
  {
    ZFillNine(n);
    SlicesOfNine(ZFill(NatToString(n), 9));
  }

  /** Below 10^9, different sequence numbers are published under different paths. */
  lemma SequencePathInjective(n: nat, m: nat)
    requires n < 1000000000 && m < 1000000000
    requires PathOf(NatToString(n)) == PathOf(NatToString(m))
    ensures n == m
  {
    SequencePathDenotes(n);
    SequencePathDenotes(m);
  }

  /**
   * From 10^9 on, the path keeps only the first nine digits: sequence n is looked
   * for under the same path as sequence n / 10 (10^9 under that of 10^8).
   */
  lemma SequencePathTruncates(n: nat)
    requires n >= 1000000000
    ensures PathOf(NatToString(n)) == PathOf(NatToString(n / 10))
  {
    assert Pow10(8) == 100000000;
    NatToStringLong(n / 10, 8);
    var s := NatToString(n);
    var t := NatToString(n / 10);
    assert s == t + [DigitChar(n % 10)];
    assert s[..9] == t[..9];
  }
}
