/** The JavaScript string operations the wizard relies on: trim(), toLowerCase(), join() and number rendering. */
module Text {

  /** ECMAScript's WhiteSpace and LineTerminator code points, the set String.prototype.trim removes. */
  predicate IsSpace(c: char) {
    var n := c as int;
    n == 0x09 || n == 0x0A || n == 0x0B || n == 0x0C || n == 0x0D || n == 0x20 ||
    n == 0xA0 || n == 0x1680 || (0x2000 <= n <= 0x200A) || n == 0x2028 || n == 0x2029 ||
    n == 0x202F || n == 0x205F || n == 0x3000 || n == 0xFEFF
  }

  predicate AllSpace(s: string) {
    forall i :: 0 <= i < |s| ==> IsSpace(s[i])
  }

  predicate IsUpper(c: char) {
    'A' <= c <= 'Z'
  }

  function LowerChar(c: char): char {
    if IsUpper(c) then (c as int + 32) as char else c
  }

  /** toLowerCase, restricted to the letters A-Z. */
  function ToLower(s: string): (r: string)
    ensures |r| == |s|
    ensures forall i :: 0 <= i < |s| ==> r[i] == LowerChar(s[i])
    ensures forall i :: 0 <= i < |s| ==> !IsUpper(r[i])
    ensures forall i :: 0 <= i < |s| ==> (IsSpace(r[i]) <==> IsSpace(s[i]))
  {
    if s == [] then [] else [LowerChar(s[0])] + ToLower(s[1..])
  }

  lemma {:induction false} ToLowerAppend(a: string, b: string)
    ensures ToLower(a + b) == ToLower(a) + ToLower(b)
  {
    if a == [] {
      assert a + b == b;
    } else {
      assert (a + b)[0] == a[0];
      assert (a + b)[1..] == a[1..] + b;
      ToLowerAppend(a[1..], b);
    }
  }

  /** Lower-casing twice is lower-casing once. */
  lemma {:induction false} ToLowerIdempotent(s: string)
    ensures ToLower(ToLower(s)) == ToLower(s)
  {
    if s != [] {
      assert ToLower(s)[1..] == ToLower(s[1..]);
      ToLowerIdempotent(s[1..]);
    }
  }

  /** Lower-casing leaves whitespace as it is. */
  lemma {:induction false} ToLowerKeepsSpace(s: string)
    requires AllSpace(s)
    ensures ToLower(s) == s
  {
    if s != [] {
      ToLowerKeepsSpace(s[1..]);
    }
  }

  /** Drops leading whitespace: what is removed is whitespace, what remains starts with something else. */
  function TrimStart(s: string): (r: string)
    ensures |r| <= |s| && r == s[|s| - |r|..]
    ensures AllSpace(s[..|s| - |r|])
    ensures r == [] || !IsSpace(r[0])
  {
    if |s| > 0 && IsSpace(s[0]) then
      var r := TrimStart(s[1..]);
      assert s[1..][|s| - 1 - |r|..] == s[|s| - |r|..];
      r
    else s
  }

  /** Drops trailing whitespace: what is removed is whitespace, what remains ends with something else. */
  function TrimEnd(s: string): (r: string)
    ensures |r| <= |s| && r == s[..|r|]
    ensures AllSpace(s[|r|..])
    ensures r == [] || !IsSpace(r[|r| - 1])
  {
    if |s| > 0 && IsSpace(s[|s| - 1]) then
      var p := s[..|s| - 1];
      var r := TrimEnd(p);
      assert p[..|r|] == s[..|r|];
      assert forall i :: |r| <= i < |s| - 1 ==> s[i] == p[i];
      r
    else s
  }

  /** String.prototype.trim: empty exactly when the input is all whitespace, and otherwise bounded by non-whitespace. */
  function Trim(s: string): (r: string)
    ensures r == [] <==> AllSpace(s)
    ensures r != [] ==> !IsSpace(r[0]) && !IsSpace(r[|r| - 1])
  {
    var t := TrimStart(s);
    var r := TrimEnd(t);
    assert r == [] ==> t == t[|r|..];
    assert AllSpace(t) ==> AllSpace(s) by {
      if AllSpace(t) {
        assert s == s[..|s| - |t|] + t;
      }
    }
    r
  }

  lemma {:induction false} TrimStartSkipsSpace(p: string, u: string)
    requires AllSpace(p)
    ensures TrimStart(p + u) == TrimStart(u)
  {
    if p == [] {
      assert p + u == u;
    } else {
      assert (p + u)[0] == p[0] && IsSpace(p[0]);
      assert (p + u)[1..] == p[1..] + u;
      TrimStartSkipsSpace(p[1..], u);
    }
  }

  lemma {:induction false} TrimEndSkipsSpace(u: string, q: string)
    requires AllSpace(q)
    ensures TrimEnd(u + q) == TrimEnd(u)
  {
    if q == [] {
      assert u + q == u;
    } else {
      assert (u + q)[|u + q| - 1] == q[|q| - 1] && IsSpace(q[|q| - 1]);
      assert (u + q)[..|u + q| - 1] == u + q[..|q| - 1];
      TrimEndSkipsSpace(u, q[..|q| - 1]);
    }
  }

  /** Trimming the start of t + q touches q only when t is all whitespace. */
  lemma {:induction false} TrimStartAppend(t: string, q: string)
    ensures TrimStart(t + q) == if AllSpace(t) then TrimStart(q) else TrimStart(t) + q
  {
    if AllSpace(t) {
      TrimStartSkipsSpace(t, q);
    } else {
      assert t != [];
      if IsSpace(t[0]) {
        assert (t + q)[1..] == t[1..] + q;
        assert !AllSpace(t[1..]);
        TrimStartAppend(t[1..], q);
      }
    }
  }

  /** Whitespace padding on either side does not change the trimmed string. */
  lemma {:induction false} TrimIgnoresPadding(p: string, t: string, q: string)
    requires AllSpace(p) && AllSpace(q)
    ensures Trim(p + t + q) == Trim(t)
  {
    assert p + t + q == p + (t + q);
    TrimStartSkipsSpace(p, t + q);
    TrimStartAppend(t, q);
    if AllSpace(t) {
      assert TrimStart(q) == [] by {
        assert q == q[..|q| - |TrimStart(q)|] + TrimStart(q);
      }
    } else {
      TrimEndSkipsSpace(TrimStart(t), q);
    }
  }

  /** A string that neither starts nor ends with whitespace is its own trim. */
  lemma {:induction false} TrimKeepsUnpadded(s: string)
    requires s != [] && !IsSpace(s[0]) && !IsSpace(s[|s| - 1])
    ensures Trim(s) == s
  {
  }

  /** Trimming twice is trimming once. */
  lemma {:induction false} TrimIdempotent(s: string)
    ensures Trim(Trim(s)) == Trim(s)
  {
  }

  predicate NoUpper(s: string) {
    forall i :: 0 <= i < |s| ==> !IsUpper(s[i])
  }

  lemma {:induction false} TrimStartKeepsNoUpper(u: string)
    requires NoUpper(u)
    ensures NoUpper(TrimStart(u))
  {
    var t := TrimStart(u);
    var d := |u| - |t|;
    assert t == u[d..];
    forall i | 0 <= i < |t|
      ensures !IsUpper(t[i])
    {
      assert 0 <= d + i < |u| && t[i] == u[d + i];
    }
  }

  lemma {:induction false} TrimEndKeepsNoUpper(t: string)
    requires NoUpper(t)
    ensures NoUpper(TrimEnd(t))
  {
    var r := TrimEnd(t);
    forall i | 0 <= i < |r|
      ensures !IsUpper(r[i])
    {
      assert r[i] == t[i];
    }
  }

  /** Trimming only removes characters, so a string with no upper-case letter keeps none. */
  lemma {:induction false} TrimKeepsNoUpper(u: string)
    requires NoUpper(u)
    ensures NoUpper(Trim(u))
  {
    TrimStartKeepsNoUpper(u);
    TrimEndKeepsNoUpper(TrimStart(u));
  }

  /** Array.prototype.join. */
  function Join(xs: seq<string>, sep: string): (r: string)
    ensures xs == [] ==> r == ""
    ensures |xs| == 1 ==> r == xs[0]
    ensures |xs| > 0 ==> xs[0] <= r
    ensures |xs| > 0 ==> |r| == TotalLength(xs) + |sep| * (|xs| - 1)
  {
    if |xs| == 0 then ""
    else if |xs| == 1 then xs[0]
    else xs[0] + sep + Join(xs[1..], sep)
  }

  function TotalLength(xs: seq<string>): nat {
    if xs == [] then 0 else |xs[0]| + TotalLength(xs[1..])
  }

  /**
   * Joining two non-empty lists is joining each and putting one separator between them.
   * With the empty and one-element cases above, this fixes Join on every list.
   */
  lemma {:induction false} JoinConcat(xs: seq<string>, ys: seq<string>, sep: string)
    requires |xs| > 0 && |ys| > 0
    ensures Join(xs + ys, sep) == Join(xs, sep) + sep + Join(ys, sep)
  {
    assert (xs + ys)[0] == xs[0];
    if |xs| == 1 {
      assert (xs + ys)[1..] == ys;
    } else {
      assert (xs + ys)[1..] == xs[1..] + ys;
      JoinConcat(xs[1..], ys, sep);
    }
  }

  /** Every element appears in the joined text: after the elements before it and a separator, and it starts the rest. */
  lemma {:induction false} JoinHasPart(xs: seq<string>, sep: string, i: nat)
    requires i < |xs|
    ensures i == 0 ==> xs[0] <= Join(xs, sep)
    ensures 0 < i ==> Join(xs, sep) == Join(xs[..i], sep) + sep + Join(xs[i..], sep)
    ensures xs[i] <= Join(xs[i..], sep)
  {
    if 0 < i {
      assert xs == xs[..i] + xs[i..];
      JoinConcat(xs[..i], xs[i..], sep);
    }
  }

  predicate IsDigit(c: char) {
    '0' <= c <= '9'
  }

  predicate AllDigits(s: string) {
    forall i :: 0 <= i < |s| ==> IsDigit(s[i])
  }

  function DigitChar(d: nat): char
    requires d < 10
  {
    ('0' as int + d) as char
  }

  /** Decimal rendering of a natural number, most significant digit first. */
  function NatToString(n: nat): (s: string)
    ensures |s| > 0 && AllDigits(s)
    ensures n == 0 <==> s == "0"
    ensures |s| == 1 || s[0] != '0'
  {
    if n < 10 then [DigitChar(n)] else NatToString(n / 10) + [DigitChar(n % 10)]
  }

  /** The value of a string of decimal digits. */
  function ParseDigits(s: string): nat
    requires AllDigits(s)
  {
    if s == [] then 0 else 10 * ParseDigits(s[..|s| - 1]) + (s[|s| - 1] as int - '0' as int)
  }

  lemma {:induction false} NatToStringRoundTrip(n: nat)
    ensures ParseDigits(NatToString(n)) == n
  {
    if n >= 10 {
      var s := NatToString(n);
      assert s[..|s| - 1] == NatToString(n / 10);
      NatToStringRoundTrip(n / 10);
    }
  }

  /** How JavaScript renders an integer in a template literal. */
  function IntToString(i: int): (s: string)
    ensures |s| > 0
    ensures i >= 0 ==> AllDigits(s)
    ensures i < 0 ==> s[0] == '-' && AllDigits(s[1..])
    ensures i >= 0 ==> ParseDigits(s) == i && (|s| == 1 || s[0] != '0')
    ensures i < 0 ==> |s| > 1 && ParseDigits(s[1..]) == -i && s[1] != '0'
  {
    if i < 0 then
      NatToStringRoundTrip(-i);
      assert ("-" + NatToString(-i))[1..] == NatToString(-i);
      "-" + NatToString(-i)
    else
      NatToStringRoundTrip(i);
      NatToString(i)
  }

  /** Distinct numbers render as distinct strings. */
  lemma {:induction false} NatToStringInjective(m: nat, n: nat)
    requires NatToString(m) == NatToString(n)
    ensures m == n
  {
    NatToStringRoundTrip(m);
    NatToStringRoundTrip(n);
  }

  /** Distinct integers render as distinct strings. */
  lemma {:induction false} IntToStringInjective(a: int, b: int)
    requires IntToString(a) == IntToString(b)
    ensures a == b
  {
    var s := IntToString(a);
    if a < 0 {
      assert b < 0 by { assert !IsDigit(s[0]); }
      assert ("-" + NatToString(-a))[1..] == NatToString(-a);
      assert ("-" + NatToString(-b))[1..] == NatToString(-b);
      NatToStringInjective(-a, -b);
    } else {
      assert b >= 0 by { assert IsDigit(s[0]); }
      NatToStringInjective(a, b);
    }
  }
}
