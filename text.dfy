/**
 * The JavaScript string primitives the server's cache-control parsing relies on:
 * `String.prototype.split` with a one-character separator and the global `parseInt`
 * without a radix argument (ECMA-262, "parseInt ( string, radix )").
 */
module Text {
  import opened Wrappers

  /** Rebuilds a string from its parts; the inverse of `Split`. */
  function Join(parts: seq<string>, sep: char): string
  {
    if |parts| == 0 then ""
    else if |parts| == 1 then parts[0]
    else parts[0] + [sep] + Join(parts[1..], sep)
  }

  /**
   * `s.split(sep)`: the maximal pieces of `s` between occurrences of `sep`.
   * The empty string splits into one empty piece, as in JavaScript.
   */
  function Split(s: string, sep: char): (parts: seq<string>)
    ensures |parts| >= 1
    ensures forall i :: 0 <= i < |parts| ==> sep !in parts[i]
    ensures Join(parts, sep) == s
    decreases |s|
  {
    if |s| == 0 then [""]
    else
      var rest := Split(s[1..], sep);
      if s[0] == sep then
        assert Join([""] + rest, sep) == [sep] + Join(rest, sep) by {
          assert ([""] + rest)[1..] == rest;
        }
        [""] + rest
      else
        var parts := [[s[0]] + rest[0]] + rest[1..];
        assert parts[1..] == rest[1..];
        assert Join(parts, sep) == [s[0]] + Join(rest, sep);
        parts
  }

  /** A prefix free of the separator is glued onto the first piece. */
  lemma {:induction false} SplitPrefix(a: string, b: string, sep: char)
    requires sep !in a
    ensures Split(a + b, sep) == [a + Split(b, sep)[0]] + Split(b, sep)[1..]
    decreases |a|
  {
    if |a| == 0 {
      var parts := Split(b, sep);
      assert a + b == b && a + parts[0] == parts[0];
      assert parts == [parts[0]] + parts[1..];
    } else {
      assert (a + b)[0] == a[0] && (a + b)[1..] == a[1..] + b;
      SplitPrefix(a[1..], b, sep);
      assert [a[0]] + (a[1..] + Split(b, sep)[0]) == a + Split(b, sep)[0];
    }
  }

  /** Splitting a joined sequence of separator-free parts gives the parts back. */
  lemma {:induction false} SplitJoin(parts: seq<string>, sep: char)
    requires |parts| >= 1
    requires forall i :: 0 <= i < |parts| ==> sep !in parts[i]
    ensures Split(Join(parts, sep), sep) == parts
    decreases |parts|
  {
    if |parts| == 1 {
      SplitPrefix(parts[0], "", sep);
      assert parts[0] + "" == parts[0];
    } else {
      var rest := Join(parts[1..], sep);
      assert Join(parts, sep) == parts[0] + ([sep] + rest);
      SplitPrefix(parts[0], [sep] + rest, sep);
      assert ([sep] + rest)[0] == sep && ([sep] + rest)[1..] == rest;
      assert Split([sep] + rest, sep) == [""] + Split(rest, sep);
      SplitJoin(parts[1..], sep);
      assert Split([sep] + rest, sep) == [""] + parts[1..];
      assert parts[0] + "" == parts[0];
      assert parts == [parts[0]] + parts[1..];
    }
  }

  /** The characters ECMAScript's StrWhiteSpaceChar admits: WhiteSpace and LineTerminator. */
  predicate IsJsWhitespace(c: char)
  {
    || c in {'\t', '\n', '\U{000B}', '\U{000C}', '\r', ' ', '\U{00A0}', '\U{1680}'}
    || '\U{2000}' <= c <= '\U{200A}'
    || c in {'\U{2028}', '\U{2029}', '\U{202F}', '\U{205F}', '\U{3000}', '\U{FEFF}'}
  }

  /** Drops the leading whitespace of `s`. */
  function TrimStart(s: string): string
  {
    if |s| > 0 && IsJsWhitespace(s[0]) then TrimStart(s[1..]) else s
  }

  /** The value of `c` as a digit in radix 36 (0-9, then a/A = 10 ... z/Z = 35); 36 for any other character. */
  function DigitValue(c: char): nat
  {
    if '0' <= c <= '9' then c as nat - '0' as nat
    else if 'a' <= c <= 'z' then c as nat - 'a' as nat + 10
    else if 'A' <= c <= 'Z' then c as nat - 'A' as nat + 10
    else 36
  }

  predicate IsDigitIn(c: char, radix: nat)
  {
    DigitValue(c) < radix
  }

  /** The longest prefix of `s` made of radix-`radix` digits. */
  function DigitPrefix(s: string, radix: nat): string
  {
    if |s| > 0 && IsDigitIn(s[0], radix) then [s[0]] + DigitPrefix(s[1..], radix) else ""
  }

  /** The number written by the digits `z` in radix `radix`, most significant digit first. */
  function DigitsValue(z: string, radix: nat): nat
  {
    if |z| == 0 then 0
    else DigitsValue(z[..|z| - 1], radix) * radix + DigitValue(z[|z| - 1])
  }

  /**
   * The unsigned part of `parseInt`: radix 16 after a `0x`/`0X` prefix, radix 10 otherwise,
   * then the longest run of digits; no digits gives `None` (NaN).
   */
  function ParseUnsigned(u: string): Option<nat>
  {
    var hex := |u| >= 2 && u[0] == '0' && (u[1] == 'x' || u[1] == 'X');
    var radix := if hex then 16 else 10;
    var z := DigitPrefix(if hex then u[2..] else u, radix);
    if |z| == 0 then None else Some(DigitsValue(z, radix))
  }

  /** An optional sign followed by the unsigned part. */
  function ParseSigned(t: string): Option<int>
  {
    var negative := |t| > 0 && t[0] == '-';
    var u := if |t| > 0 && (t[0] == '-' || t[0] == '+') then t[1..] else t;
    match ParseUnsigned(u)
    case None => None
    case Some(v) => Some(if negative then -(v as int) else v as int)
  }

  /**
   * `parseInt(s)`: skip leading whitespace, then read an optionally signed number.
   * The result is exact: the rounding of very long digit runs to a double is not modelled.
   */
  function ParseInt(s: string): Option<int>
  {
    ParseSigned(TrimStart(s))
  }

  /** The decimal numeral of `n`, without sign or leading zeros. */
  function Decimal(n: nat): (d: string)
  {
    if n < 10 then [('0' as nat + n) as char]
    else Decimal(n / 10) + [('0' as nat + n % 10) as char]
  }

  /** `Decimal` writes decimal digits only, starts with `0` only for zero, and reads back as `n`. */
  lemma {:induction false} DecimalDigits(n: nat)
    ensures |Decimal(n)| >= 1
    ensures forall i :: 0 <= i < |Decimal(n)| ==> IsDigitIn(Decimal(n)[i], 10)
    ensures Decimal(n)[0] == '0' ==> n == 0
    ensures DigitsValue(Decimal(n), 10) == n
  {
    if n >= 10 {
      DecimalDigits(n / 10);
      var d := Decimal(n);
      assert d[..|d| - 1] == Decimal(n / 10);
    }
  }

  /** The digit run stops exactly where the digits stop. */
  lemma {:induction false} DigitPrefixOf(z: string, tail: string, radix: nat)
    requires forall i :: 0 <= i < |z| ==> IsDigitIn(z[i], radix)
    requires tail == [] || !IsDigitIn(tail[0], radix)
    ensures DigitPrefix(z + tail, radix) == z
    decreases |z|
  {
    if |z| == 0 {
      assert z + tail == tail;
    } else {
      assert (z + tail)[1..] == z[1..] + tail;
      DigitPrefixOf(z[1..], tail, radix);
    }
  }

  /** Leading whitespace is skipped, and nothing after it. */
  lemma {:induction false} TrimStartLeading(w: string, x: string)
    requires forall i :: 0 <= i < |w| ==> IsJsWhitespace(w[i])
    requires x == [] || !IsJsWhitespace(x[0])
    ensures TrimStart(w + x) == x
    decreases |w|
  {
    if |w| == 0 {
      assert w + x == x;
    } else {
      assert (w + x)[1..] == w[1..] + x;
      TrimStartLeading(w[1..], x);
    }
  }

  /** Every character of `z` is a radix-`radix` digit. */
  predicate AllDigits(z: string, radix: nat)
  {
    forall i :: 0 <= i < |z| ==> IsDigitIn(z[i], radix)
  }

  /**
   * A run of decimal digits, leading zeros allowed, reads back as its value, whatever
   * non-digit text follows it (a lone `0` must not be followed by `x`/`X`).
   */
  lemma {:induction false} ParseUnsignedDigits(z: string, tail: string)
    requires |z| > 0 && AllDigits(z, 10)
    requires tail == [] || !IsDigitIn(tail[0], 10)
    requires |z| == 1 && z[0] == '0' ==> tail == [] || (tail[0] != 'x' && tail[0] != 'X')
    ensures ParseUnsigned(z + tail) == Some(DigitsValue(z, 10))
    ensures IsDigitIn((z + tail)[0], 10)
  {
    var u := z + tail;
    assert u[0] == z[0];
    assert !(|u| >= 2 && u[0] == '0' && (u[1] == 'x' || u[1] == 'X')) by {
      if |u| >= 2 && u[0] == '0' {
        if |z| >= 2 {
          assert u[1] == z[1] && IsDigitIn(z[1], 10);
        } else {
          assert u[1] == tail[0];
        }
      }
    }
    DigitPrefixOf(z, tail, 10);
  }

  /** A decimal numeral reads back as its value, whatever non-digit text follows it. */
  lemma ParseUnsignedDecimal(n: nat, tail: string)
    requires tail == [] || !IsDigitIn(tail[0], 10)
    requires n == 0 ==> tail == [] || (tail[0] != 'x' && tail[0] != 'X')
    ensures ParseUnsigned(Decimal(n) + tail) == Some(n)
  {
    DecimalDigits(n);
    ParseUnsignedDigits(Decimal(n), tail);
  }

  /** Regrouping four concatenated strings, kept apart so the solver sees it in a small context. */
  lemma Regroup(a: string, b: string, c: string, e: string)
    ensures a + b + c + e == a + (b + (c + e))
  {
  }

  /** Whitespace before a sign or a digit is skipped. */
  lemma SkipWhitespace(lead: string, sign: string, u: string)
    requires forall i :: 0 <= i < |lead| ==> IsJsWhitespace(lead[i])
    requires sign == "" || sign == "+" || sign == "-"
    requires |u| > 0 && IsDigitIn(u[0], 10)
    ensures ParseInt(lead + (sign + u)) == ParseSigned(sign + u)
  {
    var x := sign + u;
    assert !IsJsWhitespace(x[0]) by {
      assert x[0] == if sign == "" then u[0] else sign[0];
    }
    TrimStartLeading(lead, x);
  }

  /** The sign is read off before the unsigned part. */
  lemma ParseSignedOf(sign: string, u: string, v: nat)
    requires sign == "" || sign == "+" || sign == "-"
    requires |u| > 0 && IsDigitIn(u[0], 10)
    requires ParseUnsigned(u) == Some(v)
    ensures ParseSigned(sign + u) == Some(if sign == "-" then -(v as int) else v as int)
  {
    if sign == "" {
      assert sign + u == u;
    } else {
      assert (sign + u)[1..] == u;
    }
  }

  /**
   * `parseInt` reads back a run of decimal digits (leading zeros allowed) that follows
   * optional whitespace and an optional sign, whatever non-digit text comes after it (a lone
   * `0` must not be followed by `x`/`X`, which would switch to radix 16).
   */
  lemma {:induction false} ParseIntDigits(lead: string, sign: string, z: string, tail: string)
    requires forall i :: 0 <= i < |lead| ==> IsJsWhitespace(lead[i])
    requires sign == "" || sign == "+" || sign == "-"
    requires |z| > 0 && AllDigits(z, 10)
    requires tail == [] || !IsDigitIn(tail[0], 10)
    requires |z| == 1 && z[0] == '0' ==> tail == [] || (tail[0] != 'x' && tail[0] != 'X')
    ensures ParseInt(lead + sign + z + tail)
         == Some(if sign == "-" then -(DigitsValue(z, 10) as int) else DigitsValue(z, 10) as int)
  {
    var u := z + tail;
    Regroup(lead, sign, z, tail);
    ParseUnsignedDigits(z, tail);
    ParseSignedOf(sign, u, DigitsValue(z, 10));
    SkipWhitespace(lead, sign, u);
  }

  /** The same for the numeral `Decimal(n)`: it reads back as `n`. */
  lemma ParseIntDecimal(lead: string, sign: string, n: nat, tail: string)
    requires forall i :: 0 <= i < |lead| ==> IsJsWhitespace(lead[i])
    requires sign == "" || sign == "+" || sign == "-"
    requires tail == [] || !IsDigitIn(tail[0], 10)
    requires n == 0 ==> tail == [] || (tail[0] != 'x' && tail[0] != 'X')
    ensures ParseInt(lead + sign + Decimal(n) + tail) == Some(if sign == "-" then -(n as int) else n as int)
  {
    DecimalDigits(n);
    ParseIntDigits(lead, sign, Decimal(n), tail);
  }

  /** The plain case: a numeral at the very start of the text. */
  lemma ParseIntOfDecimal(n: nat, tail: string)
    requires tail == [] || !IsDigitIn(tail[0], 10)
    requires n == 0 ==> tail == [] || (tail[0] != 'x' && tail[0] != 'X')
    ensures ParseInt(Decimal(n) + tail) == Some(n as int)
  {
    var u := Decimal(n) + tail;
    DecimalDigits(n);
    ParseUnsignedDecimal(n, tail);
    assert IsDigitIn(u[0], 10);
    assert TrimStart(u) == u;
  }

  /** After a `0x`/`0X` prefix the digit run is read in radix 16. */
  lemma ParseUnsignedHex(u: string, z: string, tail: string)
    requires |u| >= 2 && u[0] == '0' && (u[1] == 'x' || u[1] == 'X')
    requires u[2..] == z + tail
    requires |z| > 0 && forall i :: 0 <= i < |z| ==> IsDigitIn(z[i], 16)
    requires tail == [] || !IsDigitIn(tail[0], 16)
    ensures ParseUnsigned(u) == Some(DigitsValue(z, 16))
  {
    DigitPrefixOf(z, tail, 16);
  }

  /**
   * After `0x` or `0X`, `parseInt` reads a run of hexadecimal digits: whitespace, an optional
   * sign and a hex numeral `h` (`0x` or `0X`, then at least one hex digit) read back as the
   * signed radix-16 value of the digits, whatever non-hex text follows.
   */
  lemma ParseIntHex(lead: string, sign: string, h: string, tail: string)
    requires forall i :: 0 <= i < |lead| ==> IsJsWhitespace(lead[i])
    requires sign == "" || sign == "+" || sign == "-"
    requires |h| >= 3 && h[0] == '0' && (h[1] == 'x' || h[1] == 'X')
    requires forall i :: 2 <= i < |h| ==> IsDigitIn(h[i], 16)
    requires tail == [] || !IsDigitIn(tail[0], 16)
    ensures ParseInt(lead + sign + h + tail)
         == Some(if sign == "-" then -(DigitsValue(h[2..], 16) as int) else DigitsValue(h[2..], 16) as int)
  {
    var z := h[2..];
    var u := h + tail;
    Regroup(lead, sign, h, tail);
    assert u[2..] == z + tail;
    ParseUnsignedHex(u, z, tail);
    assert IsDigitIn(u[0], 10);
    ParseSignedOf(sign, u, DigitsValue(z, 16));
    var x := sign + u;
    assert !IsJsWhitespace(x[0]) by {
      assert x[0] == if sign == "" then u[0] else sign[0];
    }
    TrimStartLeading(lead, x);
  }

  /**
   * No digit where the number should start means NaN: after the whitespace and an optional
   * sign, text that does not begin with a decimal digit reads as nothing.
   */
  lemma ParseIntNaN(lead: string, sign: string, rest: string)
    requires forall i :: 0 <= i < |lead| ==> IsJsWhitespace(lead[i])
    requires sign == "" || sign == "+" || sign == "-"
    requires rest == [] || !IsDigitIn(rest[0], 10)
    requires sign == "" && rest != [] ==> rest[0] != '+' && rest[0] != '-' && !IsJsWhitespace(rest[0])
    ensures ParseInt(lead + sign + rest) == None
  {
    var x := sign + rest;
    assert x == [] || !IsJsWhitespace(x[0]) by {
      if x != [] {
        assert x[0] == if sign == "" then rest[0] else sign[0];
      }
    }
    assert lead + sign + rest == lead + x;
    TrimStartLeading(lead, x);
    assert DigitPrefix(rest, 10) == "";
    assert ParseUnsigned(rest) == None;
    if sign == "" {
      assert x == rest;
    } else {
      assert x[1..] == rest;
    }
  }

  /** `parseInt("undefined")`, what `parseInt` reads when its argument is missing, is NaN. */
  lemma ParseIntUndefined()
    ensures ParseInt("undefined") == None
  {
    var s := "undefined";
    ParseIntNaN("", "", s);
    assert "" + "" + s == s;
  }

  /**
   * `0x` or `0X` with no hex digit after it is NaN: the radix switch has already happened,
   * and the empty digit run reads as nothing.
   */
  lemma {:induction false} ParseIntHexNaN(lead: string, sign: string, h: string, tail: string)
    requires forall i :: 0 <= i < |lead| ==> IsJsWhitespace(lead[i])
    requires sign == "" || sign == "+" || sign == "-"
    requires |h| == 2 && h[0] == '0' && (h[1] == 'x' || h[1] == 'X')
    requires tail == [] || !IsDigitIn(tail[0], 16)
    ensures ParseInt(lead + sign + h + tail) == None
  {
    var u := h + tail;
    Regroup(lead, sign, h, tail);
    assert u[0] == '0' && u[1] == h[1] && u[2..] == tail;
    assert DigitPrefix(tail, 16) == "";
    assert ParseUnsigned(u) == None;
    if sign == "" {
      assert sign + u == u;
    } else {
      assert (sign + u)[1..] == u;
    }
    assert ParseSigned(sign + u) == None;
    SkipWhitespace(lead, sign, u);
  }
}
