/**
 * The few JavaScript string primitives the application relies on:
 * digit filtering, `trim`, `parseInt(s, 10)` and the decimal rendering of a
 * non-negative integer (`n.toString()`).
 */
module JsText {
  import opened Wrappers

  predicate IsDigit(c: char) {
    '0' <= c <= '9'
  }

  predicate AllDigits(s: string) {
    forall i :: 0 <= i < |s| ==> IsDigit(s[i])
  }

  /**
   * The characters `String.prototype.trim` and `parseInt` skip: the ECMAScript
   * WhiteSpace and LineTerminator code points.
   */
  predicate IsSpace(c: char) {
    || c == ' ' || c == '\t' || c == '\n' || c == '\r' || c == '\U{000B}' || c == '\U{000C}'
    || c == '\U{00A0}' || c == '\U{1680}' || ('\U{2000}' <= c <= '\U{200A}')
    || c == '\U{2028}' || c == '\U{2029}' || c == '\U{202F}' || c == '\U{205F}'
    || c == '\U{3000}' || c == '\U{FEFF}'
  }

  /** `s.replace(/[^0-9]/g, "")`: the ASCII digits of `s`, in their order. */
  function DigitsOnly(s: string): (r: string)
    ensures AllDigits(r)
    ensures |r| <= |s|
    ensures AllDigits(s) ==> r == s
    ensures forall c :: c in r <==> IsDigit(c) && c in s
  {
    if |s| == 0 then ""
    else if IsDigit(s[0]) then [s[0]] + DigitsOnly(s[1..])
    else DigitsOnly(s[1..])
  }

  /**
   * The replacement works character by character: the digits of a
   * concatenation are the digits of each part in order, so (with
   * `DigitsOnlyOne`) order and repetitions are kept.
   */
  lemma {:induction false} DigitsOnlyAppend(a: string, b: string)
    ensures DigitsOnly(a + b) == DigitsOnly(a) + DigitsOnly(b)
  {
    if |a| == 0 {
      assert a + b == b;
    } else {
      assert (a + b)[0] == a[0] && (a + b)[1..] == a[1..] + b;
      DigitsOnlyAppend(a[1..], b);
    }
  }

  /**
   * `s.length`: JavaScript strings count UTF-16 code units, so a character
   * above U+FFFF (a surrogate pair) counts twice.
   */
  function Utf16Length(s: string): (n: nat)
    ensures |s| <= n <= 2 * |s|
    ensures (forall i :: 0 <= i < |s| ==> s[i] as int < 0x1_0000) ==> n == |s|
  {
    if |s| == 0 then 0
    else (if s[0] as int < 0x1_0000 then 1 else 2) + Utf16Length(s[1..])
  }

  /** The code units of a concatenation are those of its parts. */
  lemma {:induction false} Utf16LengthAppend(a: string, b: string)
    ensures Utf16Length(a + b) == Utf16Length(a) + Utf16Length(b)
  {
    if |a| > 0 {
      assert (a + b)[0] == a[0] && (a + b)[1..] == a[1..] + b;
      Utf16LengthAppend(a[1..], b);
    } else {
      assert a + b == b;
    }
  }

  /** One character is one code unit up to U+FFFF and two above it. */
  lemma Utf16LengthOne(c: char)
    ensures Utf16Length([c]) == if c as int < 0x1_0000 then 1 else 2
  {
    assert [c][1..] == [];
  }

  /** One character keeps itself exactly when it is a digit. */
  lemma DigitsOnlyOne(c: char)
    ensures DigitsOnly([c]) == if IsDigit(c) then [c] else []
  {
    assert [c][1..] == [];
  }

  /** `trimStart`: drops the leading white space, and nothing else. */
  function TrimStart(s: string): (r: string)
    ensures |r| <= |s| && r == s[|s| - |r|..]
    ensures r == "" || !IsSpace(r[0])
    ensures forall i :: 0 <= i < |s| - |r| ==> IsSpace(s[i])
    ensures (forall i :: 0 <= i < |s| ==> IsSpace(s[i])) ==> r == ""
  {
    if |s| > 0 && IsSpace(s[0]) then
      var r := TrimStart(s[1..]);
      assert forall i :: 0 <= i < |s| - 1 - |r| ==> s[1..][i] == s[i + 1];
      r
    else s
  }

  /** `trimEnd`: drops the trailing white space, and nothing else. */
  function TrimEnd(s: string): (r: string)
    ensures |r| <= |s| && r == s[..|r|]
    ensures r == "" || !IsSpace(r[|r| - 1])
    ensures forall i :: |r| <= i < |s| ==> IsSpace(s[i])
    ensures (forall i :: 0 <= i < |s| ==> IsSpace(s[i])) ==> r == ""
  {
    if |s| > 0 && IsSpace(s[|s| - 1]) then TrimEnd(s[..|s| - 1]) else s
  }

  /** `String.prototype.trim`: the middle of `s` between white space at both ends. */
  function Trim(s: string): (r: string)
    ensures TrimmedFrom(s, r)
  {
    TrimEnds(s, TrimEnd(s), TrimStart(TrimEnd(s)));
    TrimMiddle(s, TrimEnd(s), TrimStart(TrimEnd(s)));
    TrimStart(TrimEnd(s))
  }

  /**
   * `r` is `s` without its leading and trailing white space: a slice of `s`
   * with only white space around it, not itself starting or ending with
   * white space, and empty exactly when `s` is all white space.
   */
  predicate TrimmedFrom(s: string, r: string) {
    && (r == "" || (!IsSpace(r[0]) && !IsSpace(r[|r| - 1])))
    && ((forall i :: 0 <= i < |s| ==> IsSpace(s[i])) <==> r == "")
    && MiddleOf(s, r)
  }

  /** `r` is a slice of `s` with only white space of `s` before and after it. */
  predicate MiddleOf(s: string, r: string) {
    exists i, j :: 0 <= i <= j <= |s| && r == s[i..j] && EdgesAreSpace(s, i, j)
  }

  lemma TrimEnds(s: string, e: string, r: string)
    requires e == TrimEnd(s) && r == TrimStart(e)
    ensures r == "" || (!IsSpace(r[0]) && !IsSpace(r[|r| - 1]))
    ensures (forall i :: 0 <= i < |s| ==> IsSpace(s[i])) <==> r == ""
  {
    assert r != "" ==> r[|r| - 1] == e[|e| - 1];
    assert r == "" ==> forall i :: 0 <= i < |s| ==> IsSpace(s[i]);
  }

  /** Everything of `s` before `i` and from `j` on is white space. */
  predicate EdgesAreSpace(s: string, i: nat, j: nat)
    requires i <= j <= |s|
  {
    (forall k :: 0 <= k < i ==> IsSpace(s[k])) && (forall k :: j <= k < |s| ==> IsSpace(s[k]))
  }

  lemma TrimMiddle(s: string, e: string, r: string)
    requires e == TrimEnd(s) && r == TrimStart(e)
    ensures MiddleOf(s, r)
  {
    var i := |e| - |r|;
    assert e == s[..|e|];
    assert r == e[i..];
    forall k | 0 <= k < i
      ensures IsSpace(s[k])
    {
      assert s[k] == e[k];
    }
    assert r == s[i..|e|] && EdgesAreSpace(s, i, |e|);
  }

  /** A string that `Trim` leaves alone: empty, or without white space at either end. */
  predicate Clean(s: string) {
    s == "" || (!IsSpace(s[0]) && !IsSpace(s[|s| - 1]))
  }

  lemma TrimClean(s: string)
    requires Clean(s)
    ensures Trim(s) == s
  {
  }

  /** The longest prefix of `s` made of digits. */
  function DigitPrefix(s: string): (r: string)
    ensures AllDigits(r)
    ensures |r| <= |s| && r == s[..|r|]
    ensures |r| < |s| ==> !IsDigit(s[|r|])
  {
    if |s| > 0 && IsDigit(s[0]) then [s[0]] + DigitPrefix(s[1..]) else ""
  }

  function DigitValue(c: char): nat
    requires IsDigit(c)
  {
    c as int - '0' as int
  }

  /** The value of a decimal digit string, most significant digit first. */
  function DigitsValue(s: string): nat
    requires AllDigits(s)
  {
    if |s| == 0 then 0 else DigitsValue(s[..|s| - 1]) * 10 + DigitValue(s[|s| - 1])
  }

  /**
   * `parseInt(s, 10)`: skip leading white space, take an optional sign and the
   * longest run of digits after it; `None` stands for NaN (no digit there).
   */
  function ParseInt(s: string): (r: Option<int>)
    ensures r.Some? <==> DigitPrefix(SignStripped(TrimStart(s))) != ""
  {
    ReadSigned(TrimStart(s))
  }

  /** The sign and digit run at the very start of `t`. */
  function ReadSigned(t: string): Option<int> {
    var digits := DigitPrefix(SignStripped(t));
    if digits == "" then None
    else if |t| > 0 && t[0] == '-' then Some(0 - DigitsValue(digits))
    else Some(DigitsValue(digits))
  }

  function SignStripped(t: string): string {
    if |t| > 0 && (t[0] == '-' || t[0] == '+') then t[1..] else t
  }

  predicate AllSpace(s: string) {
    forall k :: 0 <= k < |s| ==> IsSpace(s[k])
  }

  /** White space before a non-space character is exactly what `TrimStart` drops. */
  lemma {:induction false} TrimStartSkips(w: string, t: string)
    requires AllSpace(w)
    requires t == "" || !IsSpace(t[0])
    ensures TrimStart(w + t) == t
  {
    if |w| == 0 {
      assert w + t == t;
    } else {
      assert (w + t)[1..] == w[1..] + t;
      TrimStartSkips(w[1..], t);
    }
  }

  lemma {:induction false} DigitPrefixStops(ds: string, rest: string)
    requires AllDigits(ds)
    requires rest == "" || !IsDigit(rest[0])
    ensures DigitPrefix(ds + rest) == ds
  {
    if |ds| > 0 {
      DigitPrefixStops(ds[1..], rest);
      assert (ds + rest)[1..] == ds[1..] + rest;
    }
  }

  /**
   * What `parseInt` reads: after leading white space and an optional sign, the
   * value of the digit run, negated under '-'; whatever follows the run is ignored.
   */
  lemma ParseIntReads(w: string, sign: string, ds: string, rest: string)
    requires AllSpace(w)
    requires |sign| == 0 || (|sign| == 1 && (sign[0] == '+' || sign[0] == '-'))
    requires ds != "" && AllDigits(ds)
    requires rest == "" || !IsDigit(rest[0])
    ensures var v: int := DigitsValue(ds);
            ParseInt(w + sign + ds + rest) == Some(if |sign| == 1 && sign[0] == '-' then -v else v)
  {
    var t := sign + (ds + rest);
    Regroup(w, sign, ds, rest);
    if |sign| == 0 {
      assert t == ds + rest;
      assert t[0] == ds[0] && IsDigit(ds[0]);
    } else {
      assert t[0] == sign[0] && t[1..] == ds + rest;
    }
    assert t[0] == '-' <==> |sign| == 1 && sign[0] == '-';
    ParseIntSkipsSpace(w, t);
    ReadSignedDigits(t, ds, rest);
  }

  lemma Regroup(a: string, b: string, c: string, d: string)
    ensures a + b + c + d == a + (b + (c + d))
  {
  }

  /** Leading white space does not change what `parseInt` reads. */
  lemma ParseIntSkipsSpace(w: string, t: string)
    requires AllSpace(w)
    requires t != "" && (IsDigit(t[0]) || t[0] == '+' || t[0] == '-')
    ensures ParseInt(w + t) == ParseInt(t) == ReadSigned(t)
  {
    assert !IsSpace(t[0]);
    TrimStartSkips(w, t);
    TrimStartNoSpace(t);
    assert ParseInt(w + t) == ReadSigned(t);
  }

  lemma TrimStartNoSpace(t: string)
    requires t != "" && !IsSpace(t[0])
    ensures TrimStart(t) == t
  {
  }

  lemma ReadSignedDigits(t: string, ds: string, rest: string)
    requires SignStripped(t) == ds + rest
    requires ds != "" && AllDigits(ds)
    requires rest == "" || !IsDigit(rest[0])
    ensures var v: int := DigitsValue(ds); ReadSigned(t) == Some(if |t| > 0 && t[0] == '-' then -v else v)
  {
    DigitPrefixStops(ds, rest);
    assert DigitPrefix(SignStripped(t)) == ds;
  }



  function DigitChar(d: nat): (c: char)
    requires d < 10
    ensures IsDigit(c) && DigitValue(c) == d
  {
    ('0' as int + d) as char
  }

  /** `n.toString()` for a non-negative integer: its decimal digits without leading zeros. */
  function NatToString(n: nat): (r: string)
    ensures |r| > 0 && AllDigits(r)
    ensures r[0] == '0' ==> n == 0
    decreases n
  {
    if n < 10 then [DigitChar(n)] else NatToString(n / 10) + [DigitChar(n % 10)]
  }

  lemma {:induction false} DigitsValueOfNatToString(n: nat)
    ensures DigitsValue(NatToString(n)) == n
    decreases n
  {
    var s := NatToString(n);
    if n >= 10 {
      DigitsValueOfNatToString(n / 10);
      assert s[..|s| - 1] == NatToString(n / 10);
    }
  }

  /** Reading back the decimal rendering of `n` with `parseInt` gives `n`. */
  lemma {:induction false} ParseIntOfNatToString(n: nat)
    ensures ParseInt(NatToString(n)) == Some(n)
  {
    var s := NatToString(n);
    assert !IsSpace(s[0]);
    assert TrimStart(s) == s;
    assert SignStripped(s) == s;
    DigitPrefixOfDigits(s);
    DigitsValueOfNatToString(n);
  }

  lemma {:induction false} DigitPrefixOfDigits(s: string)
    requires AllDigits(s)
    ensures DigitPrefix(s) == s
  {
    if |s| > 0 {
      DigitPrefixOfDigits(s[1..]);
    }
  }
}
