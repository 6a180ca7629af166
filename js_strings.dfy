/** The JavaScript string built-ins the property form relies on:
    `String.prototype.trim`, `String.prototype.split(',')`,
    `Array.prototype.join`, `parseInt` and `parseFloat`.
    A parse result of None stands for NaN. */
module JsStrings {
  import opened Wrappers

  /** WhiteSpace and LineTerminator code points of ECMAScript (section 12.2
      and 12.3 of ECMA-262), the set `trim`, `parseInt` and `parseFloat` skip. */
  predicate IsWhitespace(c: char)
  {
    c == '\t' || c == '\n' || c == '\U{000B}' || c == '\U{000C}' || c == '\r' || c == ' '
    || c == '\U{00A0}' || c == '\U{1680}' || ('\U{2000}' <= c <= '\U{200A}')
    || c == '\U{2028}' || c == '\U{2029}' || c == '\U{202F}' || c == '\U{205F}'
    || c == '\U{3000}' || c == '\U{FEFF}'
  }

  predicate AllWhitespace(s: string)
  {
    forall i :: 0 <= i < |s| ==> IsWhitespace(s[i])
  }

  /** `s` with its leading white space removed. */
  function TrimStart(s: string): (r: string)
    ensures |r| <= |s| && r == s[|s| - |r|..]
    ensures AllWhitespace(s[..|s| - |r|])
    ensures r == [] || !IsWhitespace(r[0])
  {
    if s != [] && IsWhitespace(s[0]) then
      var r := TrimStart(s[1..]);
      assert s[..|s| - |r|] == [s[0]] + s[1..][..|s[1..]| - |r|];
      r
    else s
  }

  /** `s` with its trailing white space removed. */
  function TrimEnd(s: string): (r: string)
    ensures |r| <= |s| && r == s[..|r|]
    ensures AllWhitespace(s[|r|..])
    ensures r == [] || !IsWhitespace(r[|r| - 1])
  {
    if s != [] && IsWhitespace(s[|s| - 1]) then
      var r := TrimEnd(s[..|s| - 1]);
      assert s[|r|..] == s[..|s| - 1][|r|..] + [s[|s| - 1]];
      r
    else s
  }

  /** `String.prototype.trim`: the infix of `s` that neither starts nor ends
      with white space. It is empty exactly when `s` is all white space. */
  function Trim(s: string): (r: string)
    ensures |r| <= |s|
    ensures r == [] || (!IsWhitespace(r[0]) && !IsWhitespace(r[|r| - 1]))
    ensures r == [] <==> AllWhitespace(s)
    ensures exists k: nat :: WhitespaceAround(r, s, k)
  {
    TrimFacts(s);
    TrimEnd(TrimStart(s))
  }

  /** What `Trim` removes is white space at the two ends: the result is the
      infix of `s` that starts where the leading white space ends. */
  lemma TrimFacts(s: string)
    ensures TrimEnd(TrimStart(s)) == [] <==> AllWhitespace(s)
    ensures WhitespaceAround(TrimEnd(TrimStart(s)), s, |s| - |TrimStart(s)|)
  {
    var t := TrimStart(s);
    TrimOf(s, t, TrimEnd(t));
  }

  lemma TrimOf(s: string, t: string, r: string)
    requires t == TrimStart(s) && r == TrimEnd(t)
    ensures r == [] <==> AllWhitespace(s)
    ensures WhitespaceAround(r, s, |s| - |t|)
  {
    InfixOfSlices(s, t, r);
    if r == [] {
      TrimEndEmpty(t);
      WhitespaceOnBothSides(s, |s| - |t|);
    } else {
      assert r[0] == t[0];
      NotAllWhitespace(s, |s| - |t|);
    }
  }

  lemma WhitespaceOnBothSides(s: string, k: nat)
    requires k <= |s| && AllWhitespace(s[..k]) && AllWhitespace(s[k..])
    ensures AllWhitespace(s)
  {
    assert s == s[..k] + s[k..];
    AllWhitespaceConcat(s[..k], s[k..]);
  }

  lemma NotAllWhitespace(s: string, k: nat)
    requires k < |s| && !IsWhitespace(s[k])
    ensures !AllWhitespace(s)
  {
  }

  lemma InfixOfSlices(s: string, t: string, r: string)
    requires |t| <= |s| && t == s[|s| - |t|..] && AllWhitespace(s[..|s| - |t|])
    requires |r| <= |t| && r == t[..|r|] && AllWhitespace(t[|r|..])
    ensures WhitespaceAround(r, s, |s| - |t|)
  {
    assert s[|s| - |t| + |r|..] == t[|r|..];
  }

  lemma TrimEndEmpty(t: string)
    requires TrimEnd(t) == []
    ensures AllWhitespace(t)
  {
    assert t[0..] == t;
  }

  lemma AllWhitespaceConcat(a: string, b: string)
    requires AllWhitespace(a) && AllWhitespace(b)
    ensures AllWhitespace(a + b)
  {
    forall i | 0 <= i < |a + b| ensures IsWhitespace((a + b)[i]) {
      if i < |a| {
        assert (a + b)[i] == a[i];
      } else {
        assert (a + b)[i] == b[i - |a|];
      }
    }
  }

  /** Neither starts nor ends with white space. */
  predicate IsTrimmed(s: string)
  {
    s == [] || (!IsWhitespace(s[0]) && !IsWhitespace(s[|s| - 1]))
  }

  /** The texts `trim` leaves unchanged are exactly the trimmed ones. */
  lemma TrimmedIsFixed(s: string)
    ensures Trim(s) == s <==> IsTrimmed(s)
  {
    if IsTrimmed(s) && s != [] {
      assert TrimStart(s) == s;
      assert TrimEnd(s) == s;
    }
  }

  /** `r` sits at index `k` of `s`, with only white space before and after
      it. */
  predicate WhitespaceAround(r: string, s: string, k: nat)
  {
    k + |r| <= |s| && s[k..k + |r|] == r && AllWhitespace(s[..k]) && AllWhitespace(s[k + |r|..])
  }

  /** Number of occurrences of `c` in `s`. */
  function Count(s: string, c: char): nat
  {
    if s == [] then 0 else (if s[0] == c then 1 else 0) + Count(s[1..], c)
  }

  /** `s.split(',')`: the pieces between commas, in order, empty ones
      included. */
  function SplitOnComma(s: string): (r: seq<string>)
    ensures |r| == Count(s, ',') + 1
    ensures forall i :: 0 <= i < |r| ==> ',' !in r[i]
  {
    if s == [] then [""]
    else if s[0] == ',' then [""] + SplitOnComma(s[1..])
    else
      var rest := SplitOnComma(s[1..]);
      [[s[0]] + rest[0]] + rest[1..]
  }

  /** Total length of the pieces. */
  function Lengths(pieces: seq<string>): nat
  {
    if pieces == [] then 0 else |pieces[0]| + Lengths(pieces[1..])
  }

  /** `pieces.join(sep)`: it starts with the first piece and is the pieces
      plus one separator between each neighbouring pair long. */
  function Join(pieces: seq<string>, sep: string): (r: string)
    ensures pieces == [] ==> r == []
    ensures pieces != [] ==> pieces[0] <= r && |r| == Lengths(pieces) + (|pieces| - 1) * |sep|
  {
    if pieces == [] then ""
    else if |pieces| == 1 then pieces[0]
    else pieces[0] + sep + Join(pieces[1..], sep)
  }

  /** Splitting on commas and joining back with a comma restores the text. */
  lemma {:induction false} JoinSplitOnComma(s: string)
    ensures Join(SplitOnComma(s), ",") == s
  {
    if s != [] {
      JoinSplitOnComma(s[1..]);
      var rest := SplitOnComma(s[1..]);
      if s[0] == ',' {
        assert SplitOnComma(s)[1..] == rest;
        assert s == "," + s[1..];
      } else {
        var r := SplitOnComma(s);
        assert r[1..] == rest[1..];
        if |rest| == 1 {
          assert Join(r, ",") == [s[0]] + rest[0];
        } else {
          assert Join(rest, ",") == rest[0] + "," + Join(rest[1..], ",");
          assert Join(r, ",") == ([s[0]] + rest[0]) + "," + Join(rest[1..], ",");
        }
        assert s == [s[0]] + s[1..];
      }
    }
  }

  /** Joining comma-free pieces with `sep` (which starts with a comma and has
      no other) and splitting on commas gives back the pieces, each but the
      first preceded by the rest of the separator. */
  lemma {:induction false} SplitJoin(pieces: seq<string>, sep: string)
    requires |pieces| > 0
    requires |sep| > 0 && sep[0] == ',' && ',' !in sep[1..]
    requires forall i :: 0 <= i < |pieces| ==> ',' !in pieces[i]
    ensures |SplitOnComma(Join(pieces, sep))| == |pieces|
    ensures SplitOnComma(Join(pieces, sep))[0] == pieces[0]
    ensures forall i :: 0 < i < |pieces| ==> SplitOnComma(Join(pieces, sep))[i] == sep[1..] + pieces[i]
  {
    if |pieces| == 1 {
      SplitWithoutComma(pieces[0]);
    } else {
      var gap := sep[1..];
      var tail := Join(pieces[1..], sep);
      SplitJoin(pieces[1..], sep);
      var st := SplitOnComma(tail);
      assert sep == "," + gap;
      assert Join(pieces, sep) == pieces[0] + "," + (gap + tail);
      SplitAfterPrefix(pieces[0], gap + tail);
      SplitPrefix(gap, tail);
      var r := SplitOnComma(Join(pieces, sep));
      assert r == [pieces[0]] + ([gap + st[0]] + st[1..]);
      forall i | 0 < i < |pieces| ensures r[i] == gap + pieces[i] {
        if i == 1 {
          assert st[0] == pieces[1..][0];
        } else {
          assert r[i] == st[i - 1] == gap + pieces[1..][i - 1];
        }
      }
    }
  }

  /** A comma-free text splits into itself. */
  lemma {:induction false} SplitWithoutComma(s: string)
    requires ',' !in s
    ensures SplitOnComma(s) == [s]
  {
    if s != [] {
      SplitWithoutComma(s[1..]);
      assert s == [s[0]] + s[1..];
    }
  }

  /** Splitting `p + "," + t`, for comma-free `p`, gives `p` followed by the
      pieces of `t`. */
  lemma {:induction false} SplitAfterPrefix(p: string, t: string)
    requires ',' !in p
    ensures SplitOnComma(p + "," + t) == [p] + SplitOnComma(t)
  {
    if p == [] {
      assert p + "," + t == [','] + t;
      assert ([','] + t)[1..] == t;
    } else {
      assert (p + "," + t)[1..] == p[1..] + "," + t;
      SplitAfterPrefix(p[1..], t);
      assert p == [p[0]] + p[1..];
    }
  }

  /** Prefixing comma-free `p` to a text prefixes it to the first piece. */
  lemma {:induction false} SplitPrefix(p: string, t: string)
    requires ',' !in p
    ensures SplitOnComma(p + t) == [p + SplitOnComma(t)[0]] + SplitOnComma(t)[1..]
  {
    if p != [] {
      var st := SplitOnComma(t);
      assert (p + t)[0] == p[0] && (p + t)[1..] == p[1..] + t;
      SplitPrefix(p[1..], t);
      var rest := SplitOnComma(p[1..] + t);
      assert rest[0] == p[1..] + st[0] && rest[1..] == st[1..];
      assert SplitOnComma(p + t) == [[p[0]] + rest[0]] + rest[1..];
      assert [p[0]] + (p[1..] + st[0]) == p + st[0];
    } else {
      var st := SplitOnComma(t);
      assert p + t == t;
      assert p + st[0] == st[0];
      assert [st[0]] + st[1..] == st;
    }
  }

  predicate IsDigit(c: char)
  {
    '0' <= c <= '9'
  }

  lemma DigitIsNotWhitespace(c: char)
    requires IsDigit(c)
    ensures !IsWhitespace(c) && c != '-' && c != '+'
  {
  }

  function DigitValue(c: char): nat
    requires IsDigit(c)
  {
    c as int - '0' as int
  }

  /** The longest prefix of `s` made of decimal digits. */
  function DigitPrefix(s: string): (d: string)
    ensures |d| <= |s| && d == s[..|d|]
    ensures forall i :: 0 <= i < |d| ==> IsDigit(d[i])
    ensures |d| < |s| ==> !IsDigit(s[|d|])
  {
    if s != [] && IsDigit(s[0]) then [s[0]] + DigitPrefix(s[1..]) else ""
  }

  /** The value of a string of decimal digits, most significant first. */
  function DigitsValue(d: string): nat
    requires forall i :: 0 <= i < |d| ==> IsDigit(d[i])
  {
    if d == [] then 0 else 10 * DigitsValue(d[..|d| - 1]) + DigitValue(d[|d| - 1])
  }

  function Pow10(n: nat): (p: nat)
    ensures p >= 1
  {
    if n == 0 then 1 else 10 * Pow10(n - 1)
  }

  /** `parseInt(s)` with no radix: leading white space is skipped, an optional
      sign is read, then the longest run of decimal digits; no digits is NaN. */
  function ParseInt(s: string): (r: Option<int>)
    ensures AllWhitespace(s) ==> r == None
    ensures s != [] && IsDigit(s[0]) ==> r == Some(DigitsValue(DigitPrefix(s)))
    ensures s != [] && !IsWhitespace(s[0]) && !IsDigit(s[0]) && s[0] != '-' && s[0] != '+' ==> r == None
  {
    BlankTrimsToEmpty(s);
    var t := TrimStart(s);
    var negative := t != [] && t[0] == '-';
    var unsigned := if t != [] && (t[0] == '-' || t[0] == '+') then t[1..] else t;
    var d := DigitPrefix(unsigned);
    var value: int := DigitsValue(d);
    if d == [] then None else Some(if negative then -value else value)
  }

  /** The optional exponent part `e[+-]digits` at the start of `s`, or 0 when
      there is none. */
  function ExponentPart(s: string): int
  {
    if s != [] && (s[0] == 'e' || s[0] == 'E') then
      var u := s[1..];
      var negative := u != [] && u[0] == '-';
      var digits := DigitPrefix(if u != [] && (u[0] == '-' || u[0] == '+') then u[1..] else u);
      var value: int := if digits == [] then 0 else DigitsValue(digits);
      if negative then -value else value
    else 0
  }

  function Scale(m: real, e: int): real
  {
    if e >= 0 then m * Pow10(e) as real else m / Pow10(-e) as real
  }

  /** The value of the longest prefix of `u` of the form
      `digits[.digits][e[+-]digits]` (either digit run may be empty, not
      both), or None when there is no digit. */
  function UnsignedFloat(u: string): Option<real>
  {
    var whole := DigitPrefix(u);
    var afterWhole := u[|whole|..];
    var fraction := if afterWhole != [] && afterWhole[0] == '.' then DigitPrefix(afterWhole[1..]) else "";
    if whole == [] && fraction == [] then None
    else
      var afterFraction := if afterWhole != [] && afterWhole[0] == '.' then afterWhole[1 + |fraction|..] else afterWhole;
      Some(Scale(DecimalValue(whole, fraction), ExponentPart(afterFraction)))
  }

  /** The value of `whole.fraction`. */
  function DecimalValue(whole: string, fraction: string): real
    requires forall i :: 0 <= i < |whole| ==> IsDigit(whole[i])
    requires forall i :: 0 <= i < |fraction| ==> IsDigit(fraction[i])
  {
    DigitsValue(whole) as real + DigitsValue(fraction) as real / Pow10(|fraction|) as real
  }

  /** `parseFloat(s)`: leading white space is skipped, an optional sign is
      read, then the unsigned number; no digits is NaN. */
  function ParseFloat(s: string): (r: Option<real>)
    ensures AllWhitespace(s) ==> r == None
    ensures s != [] && !IsWhitespace(s[0]) && !IsDigit(s[0]) && s[0] != '-' && s[0] != '+' && s[0] != '.' ==> r == None
    ensures s != [] && IsDigit(s[0]) ==> r == UnsignedFloat(s)
  {
    BlankTrimsToEmpty(s);
    var t := TrimStart(s);
    var negative := t != [] && t[0] == '-';
    var unsigned := if t != [] && (t[0] == '-' || t[0] == '+') then t[1..] else t;
    match UnsignedFloat(unsigned)
    case None => None
    case Some(m) => Some(if negative then -m else m)
  }

  lemma BlankTrimsToEmpty(s: string)
    ensures AllWhitespace(s) ==> TrimStart(s) == []
  {
  }

  /** A run of digits followed by text that does not continue the number
      parses to the value of the digits. */
  lemma ParseIntDigits(d: string, rest: string)
    requires d != [] && forall i :: 0 <= i < |d| ==> IsDigit(d[i])
    requires rest == [] || !IsDigit(rest[0])
    ensures ParseInt(d + rest) == Some(DigitsValue(d))
  {
    var s := d + rest;
    assert s[0] == d[0];
    DigitPrefixOf(d, rest);
  }

  /** A run of digits followed by text that does not continue the number
      parses to the value of the digits. */
  lemma ParseFloatDigits(d: string, rest: string)
    requires d != [] && forall i :: 0 <= i < |d| ==> IsDigit(d[i])
    requires rest == [] || (!IsDigit(rest[0]) && rest[0] != '.' && rest[0] != 'e' && rest[0] != 'E')
    ensures ParseFloat(d + rest) == Some(DigitsValue(d) as real)
  {
    assert (d + rest)[0] == d[0];
    DigitPrefixOf(d, rest);
    UnsignedWhole(d + rest, d, rest);
  }

  lemma UnsignedWhole(u: string, d: string, rest: string)
    requires d != [] && DigitPrefix(u) == d && u[|d|..] == rest
    requires forall i :: 0 <= i < |d| ==> IsDigit(d[i])
    requires rest == [] || (rest[0] != '.' && rest[0] != 'e' && rest[0] != 'E')
    ensures UnsignedFloat(u) == Some(DigitsValue(d) as real)
  {
    assert ExponentPart(rest) == 0;
    ScaleByZero(DecimalValue(d, ""));
  }

  /** Digits, a point and digits, followed by text that does not continue
      the number, parse to the decimal value. */
  lemma ParseFloatDecimal(d: string, f: string, rest: string)
    requires d != [] && forall i :: 0 <= i < |d| ==> IsDigit(d[i])
    requires forall i :: 0 <= i < |f| ==> IsDigit(f[i])
    requires rest == [] || (!IsDigit(rest[0]) && rest[0] != 'e' && rest[0] != 'E')
    ensures ParseFloat(d + "." + f + rest) == Some(DecimalValue(d, f))
  {
    var tail := "." + f + rest;
    var s := d + tail;
    assert d + "." + f + rest == s;
    assert s[0] == d[0];
    DigitPrefixOf(d, tail);
    assert tail[1..] == f + rest;
    DigitPrefixOf(f, rest);
    assert (f + rest)[|f|..] == rest;
    UnsignedDecimal(s, d, tail, f, rest);
  }

  lemma UnsignedDecimal(u: string, d: string, tail: string, f: string, rest: string)
    requires DigitPrefix(u) == d && u[|d|..] == tail && d != []
    requires forall i :: 0 <= i < |d| ==> IsDigit(d[i])
    requires forall i :: 0 <= i < |f| ==> IsDigit(f[i])
    requires tail != [] && tail[0] == '.' && DigitPrefix(tail[1..]) == f && tail[1..][|f|..] == rest
    requires rest == [] || (rest[0] != 'e' && rest[0] != 'E')
    ensures UnsignedFloat(u) == Some(DecimalValue(d, f))
  {
    var whole := DigitPrefix(u);
    var afterWhole := u[|whole|..];
    assert afterWhole == tail;
    var fraction := if afterWhole != [] && afterWhole[0] == '.' then DigitPrefix(afterWhole[1..]) else "";
    assert fraction == f;
    var afterFraction := if afterWhole != [] && afterWhole[0] == '.' then afterWhole[1 + |fraction|..] else afterWhole;
    assert afterFraction == rest;
    assert ExponentPart(rest) == 0;
    ScaleByZero(DecimalValue(d, f));
  }

  lemma ScaleByZero(m: real)
    ensures Scale(m, 0) == m
  {
  }

  lemma {:induction false} DigitPrefixOf(d: string, rest: string)
    requires forall i :: 0 <= i < |d| ==> IsDigit(d[i])
    requires rest == [] || !IsDigit(rest[0])
    ensures DigitPrefix(d + rest) == d
  {
    if d != [] {
      assert (d + rest)[1..] == d[1..] + rest;
      DigitPrefixOf(d[1..], rest);
      assert d == [d[0]] + d[1..];
    } else {
      assert d + rest == rest;
    }
  }
}
