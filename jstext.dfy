// The JavaScript string built-ins the core relies on, stated over `string`
// (a sequence of characters): `trim`, `startsWith`, `Array.prototype.join`,
// `Number.prototype.toString` for naturals and `parseInt` without a radix.

module JsText {

  import opened Types

  /** The characters `String.prototype.trim` removes: ECMAScript WhiteSpace and LineTerminator. */
  predicate IsJsWhitespace(c: char)
  {
    || ('\t' <= c <= '\r')
    || c == ' '
    || ('\U{00A0}' <= c && IsWideWhitespace(c))
  }

  /** The whitespace characters outside ASCII: no-break space, the Unicode Zs spaces, the two separators, BOM. */
  predicate IsWideWhitespace(c: char)
  {
    || c == '\U{00A0}' || c == '\U{1680}'
    || ('\U{2000}' <= c <= '\U{200A}')
    || c == '\U{2028}' || c == '\U{2029}' || c == '\U{202F}' || c == '\U{205F}'
    || c == '\U{3000}' || c == '\U{FEFF}'
  }

  /** Leading whitespace removed: the longest suffix that does not start with whitespace. */
  function TrimStart(s: string): (r: string)
    ensures |r| <= |s| && r == s[|s| - |r|..]
    ensures forall i :: 0 <= i < |s| - |r| ==> IsJsWhitespace(s[i])
    ensures r != [] ==> !IsJsWhitespace(r[0])
  {
    if s != [] && IsJsWhitespace(s[0]) then TrimStart(s[1..]) else s
  }

  /** Trailing whitespace removed: the longest prefix that does not end with whitespace. */
  function TrimEnd(s: string): (r: string)
    ensures |r| <= |s| && r == s[..|r|]
    ensures forall i :: |r| <= i < |s| ==> IsJsWhitespace(s[i])
    ensures r != [] ==> !IsJsWhitespace(r[|r| - 1])
  {
    if s != [] && IsJsWhitespace(s[|s| - 1]) then TrimEnd(s[..|s| - 1]) else s
  }

  /** `s.trim()`. */
  function Trim(s: string): (r: string)
  {
    TrimEnd(TrimStart(s))
  }

  /** `!s.trim()`: the text is empty after trimming. */
  predicate IsBlank(s: string)
  {
    Trim(s) == ""
  }

  /** A string is blank exactly when every one of its characters is whitespace. */
  lemma BlankIffAllWhitespace(s: string)
    ensures IsBlank(s) <==> forall i :: 0 <= i < |s| ==> IsJsWhitespace(s[i])
  {
    var t := TrimStart(s);
    assert forall i :: 0 <= i < |t| ==> t[i] == s[|s| - |t| + i];
    if !forall i :: 0 <= i < |s| ==> IsJsWhitespace(s[i]) {
      var k :| 0 <= k < |s| && !IsJsWhitespace(s[k]);
      assert !IsJsWhitespace(t[k - (|s| - |t|)]);
    }
  }

  /** Whitespace at both ends is stripped, and nothing else. */
  lemma TrimIsSlice(s: string)
    ensures exists i, j :: 0 <= i <= j <= |s| && Trim(s) == s[i..j]
              && (forall k :: 0 <= k < i ==> IsJsWhitespace(s[k]))
              && (forall k :: j <= k < |s| ==> IsJsWhitespace(s[k]))
  {
    var i, j := TrimBounds(s);
  }

  /** The bounds of the slice `trim` keeps. */
  lemma TrimBounds(s: string) returns (i: nat, j: nat)
    ensures i <= j <= |s| && Trim(s) == s[i..j]
    ensures forall k :: 0 <= k < i ==> IsJsWhitespace(s[k])
    ensures forall k :: j <= k < |s| ==> IsJsWhitespace(s[k])
  {
    i := |s| - |TrimStart(s)|;
    j := i + |Trim(s)|;
    TrimKeepsSlice(s);
    TrimDropsTail(s);
  }

  lemma TrimKeepsSlice(s: string)
    ensures var i := |s| - |TrimStart(s)|; Trim(s) == s[i..i + |Trim(s)|]
  {
    var t := TrimStart(s);
    var i := |s| - |t|;
    var u := TrimEnd(t);
    assert u == s[i..i + |u|] by {
      assert t == s[i..];
      assert u == t[..|u|];
    }
  }

  lemma TrimDropsTail(s: string)
    ensures forall k :: |s| - |TrimStart(s)| + |Trim(s)| <= k < |s| ==> IsJsWhitespace(s[k])
  {
    var t := TrimStart(s);
    var i := |s| - |t|;
    var u := TrimEnd(t);
    forall k | i + |u| <= k < |s| ensures IsJsWhitespace(s[k]) {
      assert t == s[i..];
      assert s[k] == t[k - i];
    }
  }

  /**
   * `r` is `s[i..j]` for some `i <= j <= n`, with only whitespace in `s`
   * before `i` and between `j` and `n`, and no whitespace at either end of `r`.
   */
  predicate TrimmedSlice(s: string, n: nat, r: string)
    requires n <= |s|
  {
    && (exists i, j :: 0 <= i <= j <= n && r == s[i..j]
          && (forall k :: 0 <= k < i ==> IsJsWhitespace(s[k]))
          && (forall k :: j <= k < n ==> IsJsWhitespace(s[k])))
    && (r != [] ==> !IsJsWhitespace(r[0]) && !IsJsWhitespace(r[|r| - 1]))
  }

  /** Trimming the first `n` characters keeps a slice of them with only whitespace cut off. */
  lemma TrimPrefix(s: string, n: nat)
    requires n <= |s|
    ensures TrimmedSlice(s, n, Trim(s[..n]))
  {
    var p := s[..n];
    var i, j := TrimBounds(p);
    TrimEnds(p);
    SliceWitness(s, n, Trim(p), i, j);
  }

  lemma SliceWitness(s: string, n: nat, r: string, i: nat, j: nat)
    requires i <= j <= n <= |s| && r == s[..n][i..j]
    requires forall k :: 0 <= k < i ==> IsJsWhitespace(s[..n][k])
    requires forall k :: j <= k < n ==> IsJsWhitespace(s[..n][k])
    requires r != [] ==> !IsJsWhitespace(r[0]) && !IsJsWhitespace(r[|r| - 1])
    ensures TrimmedSlice(s, n, r)
  {
    assert r == s[i..j];
    assert forall k :: 0 <= k < i ==> s[k] == s[..n][k];
    assert forall k :: j <= k < n ==> s[k] == s[..n][k];
  }

  /** A trimmed string neither starts nor ends with whitespace. */
  lemma TrimEnds(s: string)
    ensures Trim(s) != [] ==> !IsJsWhitespace(Trim(s)[0]) && !IsJsWhitespace(Trim(s)[|Trim(s)| - 1])
  {
    var t := TrimStart(s);
    if Trim(s) != [] {
      assert Trim(s)[0] == t[0];
    }
  }

  /** `s.startsWith(prefix)`. */
  predicate StartsWith(s: string, prefix: string)
  {
    |prefix| <= |s| && s[..|prefix|] == prefix
  }

  /** `parts.join(sep)`: the parts with `sep` between neighbours; `[]` joins to "". */
  function Join(parts: seq<string>, sep: string): (r: string)
    ensures |parts| == 1 ==> r == parts[0]
    ensures |r| == TotalLength(parts) + (if parts == [] then 0 else (|parts| - 1) * |sep|)
  {
    if parts == [] then ""
    else if |parts| == 1 then parts[0]
    else parts[0] + sep + Join(parts[1..], sep)
  }

  function TotalLength(parts: seq<string>): nat
  {
    if parts == [] then 0 else |parts[0]| + TotalLength(parts[1..])
  }

  /** Joining a list extended by one more part appends the separator and that part. */
  lemma {:induction false} JoinSnoc(parts: seq<string>, last: string, sep: string)
    requires parts != []
    ensures Join(parts + [last], sep) == Join(parts, sep) + sep + last
  {
    if |parts| == 1 {
      assert parts + [last] == [parts[0], last];
    } else {
      assert (parts + [last])[1..] == parts[1..] + [last];
      JoinSnoc(parts[1..], last, sep);
    }
  }

  // ---------------------------------------------------------------- digits

  predicate IsDecimalDigit(c: char)
  {
    '0' <= c <= '9'
  }

  /** The value of a digit character in radix 36 (36 for a non-digit). */
  function DigitValue(c: char): (d: nat)
    ensures d <= 36
    ensures IsDecimalDigit(c) <==> d < 10
  {
    if '0' <= c <= '9' then (c as int) - ('0' as int)
    else if 'a' <= c <= 'z' then (c as int) - ('a' as int) + 10
    else if 'A' <= c <= 'Z' then (c as int) - ('A' as int) + 10
    else 36
  }

  /** The longest prefix of `s` made of digits of the given radix. */
  function DigitRun(s: string, radix: nat): (r: string)
    ensures |r| <= |s| && r == s[..|r|]
    ensures forall i :: 0 <= i < |r| ==> DigitValue(r[i]) < radix
    ensures |r| < |s| ==> DigitValue(s[|r|]) >= radix
  {
    if s != [] && DigitValue(s[0]) < radix then [s[0]] + DigitRun(s[1..], radix) else ""
  }

  /** The number a run of digits denotes in the given radix, most significant digit first. */
  function DigitsValue(ds: string, radix: nat): nat
  {
    if ds == [] then 0 else DigitsValue(ds[..|ds| - 1], radix) * radix + DigitValue(ds[|ds| - 1])
  }

  function DigitChar(d: nat): (c: char)
    requires d < 10
    ensures IsDecimalDigit(c) && DigitValue(c) == d
  {
    (('0' as int) + d) as char
  }

  /** `n.toString()` for a natural number: its decimal digits without leading zeros. */
  function DecimalString(n: nat): (s: string)
    ensures s != []
    ensures forall i :: 0 <= i < |s| ==> IsDecimalDigit(s[i])
    ensures |s| > 1 ==> s[0] != '0'
  {
    if n < 10 then [DigitChar(n)] else DecimalString(n / 10) + [DigitChar(n % 10)]
  }

  /** Reading back the decimal digits of `n` gives `n`. */
  lemma {:induction false} DecimalStringValue(n: nat)
    ensures DigitsValue(DecimalString(n), 10) == n
  {
    var s := DecimalString(n);
    if n >= 10 {
      assert s[..|s| - 1] == DecimalString(n / 10);
      DecimalStringValue(n / 10);
    }
  }

  /**
   * `parseInt(s)` with no radix: leading whitespace is skipped, one sign is
   * taken, a "0x"/"0X" prefix switches to radix 16, and the longest run of
   * digits that follows is read. No digits at all gives NaN, here `None`.
   */
  function ParseInt(s: string): Option<int>
  {
    ParseSigned(TrimStart(s))
  }

  /** One optional sign, then the unsigned part; a minus negates the number read. */
  function ParseSigned(t: string): Option<int>
  {
    if t != [] && t[0] == '-' then
      match ParseUnsigned(t[1..])
      case None => None
      case Some(n) => Some(-n)
    else if t != [] && t[0] == '+' then ParseUnsigned(t[1..])
    else ParseUnsigned(t)
  }

  /** `-n` of a parsed number; NaN stays NaN. */
  function Negated(r: Option<int>): (q: Option<int>)
    ensures q.Some? <==> r.Some?
    ensures q.Some? ==> q.value == -r.value
  {
    match r
    case None => None
    case Some(n) => Some(-n)
  }

  /** A "0x"/"0X" prefix selects radix 16; then the longest digit run is read. */
  function ParseUnsigned(u: string): Option<int>
  {
    var hex := |u| >= 2 && u[0] == '0' && (u[1] == 'x' || u[1] == 'X');
    var radix := if hex then 16 else 10;
    var ds := DigitRun(if hex then u[2..] else u, radix);
    if ds == [] then None else Some(DigitsValue(ds, radix))
  }

  /** A string of digits has nothing to trim and is its own digit run. */
  lemma DigitsUntouched(s: string)
    requires s != [] && forall i :: 0 <= i < |s| ==> IsDecimalDigit(s[i])
    ensures TrimStart(s) == s && DigitRun(s, 10) == s
  {
    assert !IsJsWhitespace(s[0]);
    var r := DigitRun(s, 10);
    assert forall k :: 0 <= k < |s| ==> DigitValue(s[k]) < 10;
  }

  /** A run of decimal digits parses as the number it denotes. */
  lemma DigitsParse(s: string)
    requires s != [] && forall i :: 0 <= i < |s| ==> IsDecimalDigit(s[i])
    ensures ParseInt(s) == Some(DigitsValue(s, 10))
  {
    StartsWithDigit(s);
    DigitsReadUnsigned(s);
  }

  /** A string that starts with a digit has neither whitespace nor a sign to skip. */
  lemma StartsWithDigit(s: string)
    requires s != [] && IsDecimalDigit(s[0])
    ensures ParseInt(s) == ParseUnsigned(s)
  {
    assert TrimStart(s) == s;
  }

  lemma DigitsReadUnsigned(s: string)
    requires s != [] && forall i :: 0 <= i < |s| ==> IsDecimalDigit(s[i])
    ensures ParseUnsigned(s) == Some(DigitsValue(s, 10))
  {
    DigitsUntouched(s);
    assert !(|s| >= 2 && (s[1] == 'x' || s[1] == 'X')) by {
      if |s| >= 2 {
        assert IsDecimalDigit(s[1]);
      }
    }
  }

  /** `parseInt(n.toString())` is `n`. */
  lemma DecimalStringParses(n: nat)
    ensures ParseInt(DecimalString(n)) == Some(n)
  {
    DigitsParse(DecimalString(n));
    DecimalStringValue(n);
  }

  /** A string with no character at all is not a number. */
  lemma EmptyIsNaN()
    ensures ParseInt("") == None
    ensures ParseInt(" ") == None
  {
    assert DigitRun("", 10) == "";
    assert ParseInt("") == ParseUnsigned("") == None;
    assert " "[1..] == "";
    assert TrimStart(" ") == "";
  }

  /** Leading whitespace in front of a part that does not start with whitespace is all `trimStart` removes. */
  lemma TrimStartSkips(ws: string, t: string)
    requires forall i :: 0 <= i < |ws| ==> IsJsWhitespace(ws[i])
    requires t == [] || !IsJsWhitespace(t[0])
    ensures TrimStart(ws + t) == t
  {
    if ws == [] {
      assert ws + t == t;
    } else {
      assert (ws + t)[1..] == ws[1..] + t;
      TrimStartSkips(ws[1..], t);
    }
  }

  /** A digit run ends at the first character that is not a digit of the radix. */
  lemma DigitRunStops(ds: string, rest: string, radix: nat)
    requires forall i :: 0 <= i < |ds| ==> DigitValue(ds[i]) < radix
    requires rest == [] || DigitValue(rest[0]) >= radix
    ensures DigitRun(ds + rest, radix) == ds
  {
    if ds == [] {
      assert ds + rest == rest;
    } else {
      assert (ds + rest)[1..] == ds[1..] + rest;
      DigitRunStops(ds[1..], rest, radix);
    }
  }

  /** One sign is taken, and the rest is read unsigned; a minus negates what is read. */
  lemma SignTaken(sign: string, u: string)
    requires sign == "" || sign == "-" || sign == "+"
    requires sign != "" || u == [] || (u[0] != '-' && u[0] != '+')
    ensures ParseSigned(sign + u) == if sign == "-" then Negated(ParseUnsigned(u)) else ParseUnsigned(u)
  {
    if sign == "" {
      assert sign + u == u;
    } else {
      assert (sign + u)[0] == sign[0] && (sign + u)[1..] == u;
    }
  }

  /**
   * After the leading whitespace, one sign is taken and the rest is read
   * unsigned; `s` is the whole string, named so that its parts stay apart.
   */
  lemma ParseAfterWhitespace(s: string, ws: string, sign: string, u: string)
    requires s == ws + sign + u
    requires forall i :: 0 <= i < |ws| ==> IsJsWhitespace(ws[i])
    requires sign == "" || sign == "-" || sign == "+"
    requires sign != "" || u == [] || (!IsJsWhitespace(u[0]) && u[0] != '-' && u[0] != '+')
    ensures ParseInt(s) == if sign == "-" then Negated(ParseUnsigned(u)) else ParseUnsigned(u)
  {
    var t := sign + u;
    assert TrimStart(s) == t by {
      assert s == ws + t;
      assert t != [] ==> !IsJsWhitespace(t[0]) by {
        if sign != "" {
          assert t[0] == sign[0];
        }
      }
      TrimStartSkips(ws, t);
    }
    SignTaken(sign, u);
  }

  /** Whatever reads as a number starts with a decimal digit, so neither with whitespace nor with a sign. */
  lemma ReadStartsWithDigit(u: string)
    requires ParseUnsigned(u).Some?
    ensures u != [] && IsDecimalDigit(u[0])
    ensures !IsJsWhitespace(u[0]) && u[0] != '-' && u[0] != '+'
  {
    if !(|u| >= 2 && u[0] == '0' && (u[1] == 'x' || u[1] == 'X')) {
      var r := DigitRun(u, 10);
      assert r[0] == u[0] && DigitValue(r[0]) < 10;
    }
  }

  /** Decimal digits without a "0x" prefix are read in radix 10 up to the first non-digit. */
  lemma ReadsDecimal(d: string, rest: string)
    requires d != [] && forall i :: 0 <= i < |d| ==> IsDecimalDigit(d[i])
    requires |d| > 1 ==> d[0] != '0'
    requires d == "0" ==> rest == [] || (rest[0] != 'x' && rest[0] != 'X')
    requires rest == [] || !IsDecimalDigit(rest[0])
    ensures ParseUnsigned(d + rest) == Some(DigitsValue(d, 10))
  {
    var u := d + rest;
    assert |u| >= 2 ==> u[1] == if |d| > 1 then d[1] else rest[0];
    assert forall i :: 0 <= i < |d| ==> DigitValue(d[i]) < 10;
    DigitRunStops(d, rest, 10);
  }

  /**
   * After "0x" or "0X", the hexadecimal digits `ds` are read up to the first
   * character that is not one; with `ParseAfterWhitespace` this is what
   * `parseInt` makes of a hexadecimal literal after whitespace and a sign.
   */
  lemma ReadsHex(u: string, ds: string, rest: string)
    requires |u| >= 2 && u[0] == '0' && (u[1] == 'x' || u[1] == 'X') && u[2..] == ds + rest
    requires ds != [] && forall i :: 0 <= i < |ds| ==> DigitValue(ds[i]) < 16
    requires rest == [] || DigitValue(rest[0]) >= 16
    ensures ParseUnsigned(u) == Some(DigitsValue(ds, 16))
  {
    DigitRunStops(ds, rest, 16);
  }

  /**
   * `parseInt` skips leading whitespace, takes one sign and reads decimal
   * digits up to the first character that does not continue them: whitespace,
   * a sign, the digits of `n` and anything else parse to `n`, negated after a minus.
   */
  lemma ParseSignedDecimal(ws: string, sign: string, n: nat, rest: string)
    requires forall i :: 0 <= i < |ws| ==> IsJsWhitespace(ws[i])
    requires sign == "" || sign == "-" || sign == "+"
    requires rest == [] || (!IsDecimalDigit(rest[0]) && (n != 0 || (rest[0] != 'x' && rest[0] != 'X')))
    ensures ParseInt(ws + sign + DecimalString(n) + rest) == Some(if sign == "-" then -(n as int) else n)
  {
    var d := DecimalString(n);
    var u := d + rest;
    assert u[0] == d[0] && IsDecimalDigit(d[0]);
    assert ws + sign + d + rest == ws + sign + u;
    DecimalReads(n, rest);
    ParseAfterWhitespace(ws + sign + d + rest, ws, sign, u);
    if sign == "-" {
      assert ParseInt(ws + sign + d + rest) == Negated(Some(n));
    } else {
      assert ParseInt(ws + sign + d + rest) == Some(n);
    }
  }

  /** The digits of `n.toString()`, followed by anything that does not continue them, read as `n`. */
  lemma DecimalReads(n: nat, rest: string)
    requires rest == [] || (!IsDecimalDigit(rest[0]) && (n != 0 || (rest[0] != 'x' && rest[0] != 'X')))
    ensures ParseUnsigned(DecimalString(n) + rest) == Some(n)
  {
    var d := DecimalString(n);
    DecimalStringValue(n);
    assert d == "0" ==> n == 0 by {
      if d == "0" {
        assert DigitsValue(d, 10) == DigitsValue([], 10) * 10 + DigitValue('0');
      }
    }
    ReadsDecimal(d, rest);
  }

  /** Whitespace and at most one sign followed by no digit at all is NaN. */
  lemma ParseNoDigits(ws: string, sign: string, rest: string)
    requires forall i :: 0 <= i < |ws| ==> IsJsWhitespace(ws[i])
    requires sign == "" || sign == "-" || sign == "+"
    requires rest == [] || (!IsDecimalDigit(rest[0]) && !IsJsWhitespace(rest[0]) && rest[0] != '-' && rest[0] != '+')
    ensures ParseInt(ws + sign + rest) == None
  {
    assert ParseUnsigned(rest) == None by {
      if rest != [] {
        assert DigitValue(rest[0]) >= 10;
      }
    }
    ParseAfterWhitespace(ws + sign + rest, ws, sign, rest);
  }

  /** A decimal number after whitespace and a minus, ended by a unit: `parseInt(" -42px")` is -42. */
  lemma ParseDecimalExample()
    ensures ParseInt(" -42px") == Some(-42)
  {
    var u := "42px";
    assert DigitsValue("42", 10) == 42 by {
      assert "42"[..1] == "4" && "4"[..0] == "";
    }
    assert ParseUnsigned(u) == Some(42) by {
      assert u == "42" + "px";
      ReadsDecimal("42", "px");
    }
    assert " -42px" == " " + "-" + u;
    ParseAfterWhitespace(" -42px", " ", "-", u);
  }

  /** A hexadecimal literal after whitespace and a minus: `parseInt(" -0x1F;")` is -31. */
  lemma ParseHexExample()
    ensures ParseInt(" -0x1F;") == Some(-31)
  {
    var u := "0x1F;";
    assert DigitsValue("1F", 16) == 31 by {
      assert "1F"[..1] == "1" && "1"[..0] == "";
    }
    assert ParseUnsigned(u) == Some(31) by {
      assert u[2..] == "1F" + ";";
      ReadsHex(u, "1F", ";");
    }
    assert " -0x1F;" == " " + "-" + u;
    ParseAfterWhitespace(" -0x1F;", " ", "-", u);
  }
}
