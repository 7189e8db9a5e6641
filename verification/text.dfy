/**
 The string operations the service performs on headers, URLs and Stripe
 metadata, with the semantics of the Python built-ins it calls:
 `str.startswith`, `str.strip()`, `str.replace(p, "")`, `str(int)` and `int(str)`.
 */
module Text {
  import opened Common

  /** `s.startswith(prefix)` */
  predicate StartsWith(s: string, prefix: string) {
    |prefix| <= |s| && s[..|prefix|] == prefix
  }

  /** `p in s` for a non-empty `p`: some suffix of `s` starts with `p`. */
  predicate HasInfix(s: string, p: string)
    decreases |s|
  {
    StartsWith(s, p) || (|s| > 0 && HasInfix(s[1..], p))
  }

  /**
   `c.isspace()` for the characters a header value can hold: the framework
   decodes headers as Latin-1, so only code points below 0x100 occur, and
   these are the whitespace among them that `strip()` removes.
   */
  predicate IsSpace(c: char) {
    var n := c as int;
    (0x09 <= n <= 0x0D) || (0x1C <= n <= 0x20) || n == 0x85 || n == 0xA0
  }

  /** Neither end of `s` is whitespace. */
  predicate IsStripped(s: string) {
    |s| == 0 || (!IsSpace(s[0]) && !IsSpace(s[|s| - 1]))
  }

  /** Every character of `s` is whitespace. */
  predicate AllSpace(s: string) {
    forall i :: 0 <= i < |s| ==> IsSpace(s[i])
  }

  /** `s.lstrip()`: drops the whitespace at the front of `s`. */
  function StripLeading(s: string): (r: string)
    ensures |r| <= |s|
    ensures |r| > 0 ==> !IsSpace(r[0])
    decreases |s|
  {
    if |s| > 0 && IsSpace(s[0]) then StripLeading(s[1..]) else s
  }

  /** `s.rstrip()`: drops the whitespace at the end of `s`. */
  function StripTrailing(s: string): (r: string)
    ensures |r| <= |s|
    ensures |r| > 0 ==> r[0] == s[0] && !IsSpace(r[|r| - 1])
    decreases |s|
  {
    if |s| > 0 && IsSpace(s[|s| - 1]) then StripTrailing(s[..|s| - 1]) else s
  }

  /** `lstrip()` keeps a suffix of `s` and drops only whitespace before it. */
  lemma {:induction false} StripLeadingIsSuffix(s: string)
    ensures var r := StripLeading(s);
      r == s[|s| - |r|..] && AllSpace(s[..|s| - |r|])
    decreases |s|
  {
    var r := StripLeading(s);
    if |s| > 0 && IsSpace(s[0]) {
      var t := s[1..];
      StripLeadingIsSuffix(t);
      assert r == StripLeading(t);
      assert t[|t| - |r|..] == s[|s| - |r|..];
      forall j | 0 <= j < |s| - |r|
        ensures IsSpace(s[j])
      {
        if j > 0 {
          assert t[..|t| - |r|][j - 1] == s[j];
        }
      }
      assert forall i :: 0 <= i < |s| - |r| ==> s[..|s| - |r|][i] == s[i];
    } else {
      assert r == s;
    }
  }

  /** `rstrip()` keeps a prefix of `s` and drops only whitespace after it. */
  lemma {:induction false} StripTrailingIsPrefix(s: string)
    ensures var r := StripTrailing(s);
      r == s[..|r|] && AllSpace(s[|r|..])
    decreases |s|
  {
    var r := StripTrailing(s);
    if |s| > 0 && IsSpace(s[|s| - 1]) {
      var t := s[..|s| - 1];
      StripTrailingIsPrefix(t);
      assert r == StripTrailing(t);
      assert t[..|r|] == s[..|r|];
      forall j | |r| <= j < |s|
        ensures IsSpace(s[j])
      {
        if j < |t| {
          assert t[|r|..][j - |r|] == t[j];
        }
      }
      assert forall i :: 0 <= i < |s| - |r| ==> s[|r|..][i] == s[|r| + i];
    } else {
      assert r == s;
    }
  }

  /** `s.strip()` */
  function Strip(s: string): (r: string)
    ensures |r| <= |s|
    ensures IsStripped(r)
    ensures IsStripped(s) ==> r == s
  {
    StripTrailing(StripLeading(s))
  }

  /**
   What `strip()` keeps: the slice of `s` left after removing a prefix and
   a suffix that are whitespace only.
   */
  lemma StripIsSlice(s: string)
    ensures var r := Strip(s);
            var i := |s| - |StripLeading(s)|;
      && i + |r| <= |s|
      && r == s[i..i + |r|]
      && AllSpace(s[..i])
      && AllSpace(s[i + |r|..])
  {
    var lead := StripLeading(s);
    var r := Strip(s);
    var i := |s| - |lead|;
    StripLeadingIsSuffix(s);
    StripTrailingIsPrefix(lead);
    assert r == StripTrailing(lead);
    assert lead == s[i..];
    assert r == lead[..|r|] == s[i..i + |r|];
    assert lead[|r|..] == s[i + |r|..];
  }

  /** Stripping skips any run of leading whitespace. */
  lemma {:induction false} StripLeadingSkips(w: string, x: string)
    requires AllSpace(w)
    ensures StripLeading(w + x) == StripLeading(x)
    decreases |w|
  {
    if |w| > 0 {
      var t := w + x;
      assert t[0] == w[0];
      assert IsSpace(t[0]);
      assert StripLeading(t) == StripLeading(t[1..]);
      assert t[1..] == w[1..] + x;
      StripLeadingSkips(w[1..], x);
    } else {
      assert w + x == x;
    }
  }

  /** Stripping skips any run of trailing whitespace. */
  lemma {:induction false} StripTrailingSkips(x: string, w: string)
    requires AllSpace(w)
    ensures StripTrailing(x + w) == StripTrailing(x)
    decreases |w|
  {
    if |w| > 0 {
      var t := x + w;
      var n := |w| - 1;
      assert t[|t| - 1] == w[n];
      assert IsSpace(t[|t| - 1]);
      assert StripTrailing(t) == StripTrailing(t[..|t| - 1]);
      assert t[..|t| - 1] == x + w[..n];
      StripTrailingSkips(x, w[..n]);
    } else {
      assert x + w == x;
    }
  }

  /** `(w1 + k + w2).strip() == k` for whitespace `w1`, `w2` and a trimmed `k`. */
  lemma StripPadded(w1: string, k: string, w2: string)
    requires AllSpace(w1) && AllSpace(w2) && IsStripped(k)
    ensures Strip(w1 + k + w2) == k
  {
    var t := k + w2;
    assert w1 + k + w2 == w1 + t;
    StripLeadingSkips(w1, t);
    var lead := StripLeading(t);
    if |k| == 0 {
      assert t == w2 + "";
      StripLeadingSkips(w2, "");
      assert lead == "";
    } else {
      assert t[0] == k[0];
      assert lead == t;
      StripTrailingSkips(k, w2);
      assert StripTrailing(k) == k;
    }
    assert StripTrailing(lead) == k;
  }

  /**
   `s.replace(p, "")`: scanning left to right, every non-overlapping
   occurrence of `p` is dropped; the scan resumes after each occurrence.
   */
  function RemoveAll(s: string, p: string): (r: string)
    requires |p| > 0
    ensures |r| <= |s|
    ensures HasInfix(s, p) ==> |r| <= |s| - |p|
    ensures r == s <==> !HasInfix(s, p)
    decreases |s|
  {
    if StartsWith(s, p) then
      assert s == s[..|p|] + s[|p|..];
      RemoveAll(s[|p|..], p)
    else if |s| == 0 then s
    else
      assert s == [s[0]] + s[1..];
      [s[0]] + RemoveAll(s[1..], p)
  }

  /** Removal only deletes: every character of the result comes from `s`. */
  lemma {:induction false} RemoveAllDeletesOnly(s: string, p: string)
    requires |p| > 0
    ensures multiset(RemoveAll(s, p)) <= multiset(s)
    decreases |s|
  {
    if StartsWith(s, p) {
      RemoveAllDeletesOnly(s[|p|..], p);
      assert s == s[..|p|] + s[|p|..];
    } else if |s| > 0 {
      RemoveAllDeletesOnly(s[1..], p);
      assert s == [s[0]] + s[1..];
    }
  }

  /** A marker at the front is dropped and removal continues after it. */
  lemma RemoveLeading(s: string, p: string)
    requires |p| > 0 && StartsWith(s, p)
    ensures RemoveAll(s, p) == RemoveAll(s[|p|..], p)
  {
  }

  predicate IsDigit(c: char) {
    '0' <= c <= '9'
  }

  predicate AllDigits(s: string) {
    forall i :: 0 <= i < |s| ==> IsDigit(s[i])
  }

  function DigitChar(d: int): (c: char)
    requires 0 <= d < 10
    ensures IsDigit(c)
  {
    (d + '0' as int) as char
  }

  function DigitValue(c: char): (d: int)
    requires IsDigit(c)
    ensures 0 <= d < 10 && DigitChar(d) == c
  {
    c as int - '0' as int
  }

  /** The decimal rendering of a natural number, most significant digit first. */
  function NatToDecimal(n: nat): (s: string)
    ensures |s| > 0 && AllDigits(s)
    ensures |s| > 1 ==> s[0] != '0'
  {
    if n < 10 then [DigitChar(n)] else NatToDecimal(n / 10) + [DigitChar(n % 10)]
  }

  /** The number a string of decimal digits denotes. */
  function DecimalValue(s: string): nat
    requires AllDigits(s)
  {
    if |s| == 0 then 0 else DecimalValue(s[..|s| - 1]) * 10 + DigitValue(s[|s| - 1])
  }

  /** Reading back a rendered natural number gives that number. */
  lemma {:induction false} DecimalRoundTrip(n: nat)
    ensures DecimalValue(NatToDecimal(n)) == n
  {
    if n >= 10 {
      var s := NatToDecimal(n);
      var hi := NatToDecimal(n / 10);
      assert s[..|s| - 1] == hi;
      DecimalRoundTrip(n / 10);
      assert DigitValue(s[|s| - 1]) == n % 10;
    }
  }

  /** `str(n)` for a Python int. */
  function IntToString(n: int): (s: string)
    ensures |s| > 0
    ensures n >= 0 <==> AllDigits(s)
  {
    if n < 0 then
      var s := "-" + NatToDecimal(-n);
      assert !IsDigit(s[0]);
      s
    else NatToDecimal(n)
  }

  /** The strings the modelled `int()` accepts: an optional sign, then one or more ASCII digits. */
  predicate IsIntLiteral(s: string) {
    || (|s| > 0 && AllDigits(s))
    || (|s| > 1 && (s[0] == '-' || s[0] == '+') && AllDigits(s[1..]))
  }

  /**
   `int(s)` restricted to an optional sign followed by at least one ASCII
   digit; any other string raises (None).
   */
  function ParseInt(s: string): (r: Option<int>)
    ensures r.Some? <==> IsIntLiteral(s)
    ensures r.Some? && s[0] == '-' ==> r.value == -(DecimalValue(s[1..]) as int)
    ensures r.Some? && s[0] == '+' ==> r.value == DecimalValue(s[1..]) as int
    ensures r.Some? && s[0] != '-' && s[0] != '+' ==> r.value == DecimalValue(s) as int
  {
    if |s| > 0 && (s[0] == '-' || s[0] == '+') then
      var body := s[1..];
      if |body| > 0 && AllDigits(body) then
        var v: int := DecimalValue(body);
        Some(if s[0] == '-' then -v else v)
      else None
    else if |s| > 0 && AllDigits(s) then Some(DecimalValue(s))
    else None
  }

  /** `int(str(n)) == n` */
  lemma IntRoundTrip(n: int)
    ensures ParseInt(IntToString(n)) == Some(n)
  {
    var s := IntToString(n);
    if n < 0 {
      var digits := NatToDecimal(-n);
      assert s == "-" + digits;
      assert s[0] == '-' && s[1..] == digits;
      assert IsIntLiteral(s);
      DecimalRoundTrip(-n);
      assert ParseInt(s).value == -(DecimalValue(digits) as int);
    } else {
      assert s == NatToDecimal(n);
      assert IsDigit(s[0]);
      assert IsIntLiteral(s);
      DecimalRoundTrip(n);
      assert ParseInt(s).value == DecimalValue(s) as int;
    }
  }
}
