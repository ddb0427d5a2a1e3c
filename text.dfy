/** The JavaScript string operations the storefront applies to product and form text:
    `toLowerCase`, `includes`, `replace` with a one-character string pattern,
    `split(' ')`, `join` and `parseInt` (radix left to the function). Characters are
    Unicode scalar values; `length` is counted in UTF-16 code units by `UnitLength`;
    case mapping covers the ASCII letters only. */
module Text {
  import opened Seqs

  function LowerChar(c: char): char
  {
    if 'A' <= c <= 'Z' then (c as int + 32) as char else c
  }

  /** `s.toLowerCase()` on ASCII letters; every other character is kept. */
  function ToLower(s: string): string
  {
    seq(|s|, i requires 0 <= i < |s| => LowerChar(s[i]))
  }

  /** `s.length`: JavaScript counts UTF-16 code units, so a character beyond
      U+FFFF (a surrogate pair) counts twice. */
  function UnitLength(s: string): (r: nat)
    ensures |s| <= r <= 2 * |s|
    ensures r == 0 <==> s == []
    ensures (forall i :: 0 <= i < |s| ==> s[i] <= '\U{FFFF}') ==> r == |s|
  {
    if s == [] then 0 else UnitLength(s[..|s| - 1]) + (if s[|s| - 1] > '\U{FFFF}' then 2 else 1)
  }

  /** `s.includes(t)`: `t` occurs in `s` as a contiguous block. */
  predicate Contains(s: string, t: string)
    decreases |s|
  {
    t <= s || (|s| > 0 && Contains(s[1..], t))
  }

  /** Contains is the substring test: some suffix of `s` starts with `t`. */
  lemma {:induction false} ContainsIffSomeSuffix(s: string, t: string)
    ensures Contains(s, t) <==> exists i :: 0 <= i <= |s| && t <= s[i..]
  {
    if Contains(s, t) {
      if t <= s {
        assert s[0..] == s;
      } else {
        ContainsIffSomeSuffix(s[1..], t);
        var i :| 0 <= i <= |s[1..]| && t <= s[1..][i..];
        assert s[1..][i..] == s[i + 1..];
      }
    }
    if exists i :: 0 <= i <= |s| && t <= s[i..] {
      var i :| 0 <= i <= |s| && t <= s[i..];
      if i == 0 {
        assert s[0..] == s;
      } else {
        assert s[1..][i - 1..] == s[i..];
        ContainsIffSomeSuffix(s[1..], t);
      }
    }
  }

  /** `s.replace(a, b)` with a one-character string pattern: only the first `a`
      is replaced. */
  function ReplaceFirst(s: string, a: char, b: char): (r: string)
    ensures |r| == |s|
    ensures forall i :: 0 <= i < |s| ==> r[i] == s[i] || (s[i] == a && r[i] == b)
  {
    if s == [] then []
    else if s[0] == a then [b] + s[1..]
    else [s[0]] + ReplaceFirst(s[1..], a, b)
  }

  /** ReplaceFirst leaves a string without `a` alone. */
  lemma {:induction false} ReplaceFirstAbsent(s: string, a: char, b: char)
    requires a !in s
    ensures ReplaceFirst(s, a, b) == s
  {
    if s != [] {
      ReplaceFirstAbsent(s[1..], a, b);
    }
  }

  /** When the first `a` is at position k, ReplaceFirst changes that position only. */
  lemma {:induction false} ReplaceFirstAt(s: string, a: char, b: char, k: nat)
    requires k < |s| && s[k] == a && a !in s[..k]
    ensures ReplaceFirst(s, a, b) == s[..k] + [b] + s[k + 1..]
  {
    if k > 0 {
      var t := s[1..];
      assert s[0] != a by { assert s[0] == s[..k][0]; }
      var u, v := t[..k - 1], s[..k];
      assert a !in u by {
        forall i | 0 <= i < |u| ensures u[i] != a {
          assert u[i] == v[i + 1];
        }
      }
      ReplaceFirstAt(t, a, b, k - 1);
      calc {
        ReplaceFirst(s, a, b);
        [s[0]] + ReplaceFirst(t, a, b);
        [s[0]] + (t[..k - 1] + [b] + t[k..]);
        { ConsAround(s, k, b); }
        s[..k] + [b] + s[k + 1..];
      }
    }
  }

  /** Putting the head back in front of a tail rewritten around position `k - 1`. */
  lemma ConsAround(s: string, k: nat, b: char)
    requires 0 < k < |s|
    ensures [s[0]] + (s[1..][..k - 1] + [b] + s[1..][k..]) == s[..k] + [b] + s[k + 1..]
  {
    assert s[..k] == [s[0]] + s[1..][..k - 1];
    assert s[1..][k..] == s[k + 1..];
  }

  /** `s.split(sep)` for a one-character separator: the pieces between separators,
      at least one (`"".split(' ')` is `[""]`). */
  function Split(s: string, sep: char): (r: seq<string>)
    ensures |r| >= 1
    decreases |s|
  {
    if s == [] then [""]
    else
      var init := Split(s[..|s| - 1], sep);
      var c := s[|s| - 1];
      if c == sep then init + [""]
      else init[..|init| - 1] + [init[|init| - 1] + [c]]
  }

  /** The last piece of a split is the longest suffix free of the separator: it ends
      the string, contains no separator, and is the whole string or follows one. */
  lemma {:induction false} LastPieceOfSplit(s: string, sep: char)
    ensures var r := Split(s, sep)[|Split(s, sep)| - 1];
            |r| <= |s| && r == s[|s| - |r|..] && sep !in r
            && (|r| == |s| || s[|s| - |r| - 1] == sep)
  {
    if s != [] {
      var init := s[..|s| - 1];
      LastPieceOfSplit(init, sep);
      var c := s[|s| - 1];
      var pieces := Split(init, sep);
      var last := pieces[|pieces| - 1];
      if c != sep {
        var r := last + [c];
        assert Split(s, sep)[|Split(s, sep)| - 1] == r;
        assert init[|init| - |last|..] + [c] == s[|s| - |r|..];
        if |last| < |init| {
          assert s[|s| - |r| - 1] == init[|init| - |last| - 1];
        }
      }
    }
  }

  /** `ss.join(sep)`. */
  function Join(ss: seq<string>, sep: string): string
  {
    if ss == [] then ""
    else if |ss| == 1 then ss[0]
    else ss[0] + sep + Join(ss[1..], sep)
  }

  /** The characters `parseInt` skips before a number: ECMAScript's WhiteSpace and
      LineTerminator characters. */
  predicate IsJsWhiteSpace(c: char)
  {
    c == '\t' || c == '\n' || c == '\U{000B}' || c == '\U{000C}' || c == '\r' || c == ' '
    || c == '\U{00A0}' || c == '\U{1680}' || ('\U{2000}' <= c <= '\U{200A}')
    || c == '\U{2028}' || c == '\U{2029}' || c == '\U{202F}' || c == '\U{205F}'
    || c == '\U{3000}' || c == '\U{FEFF}'
  }

  function TrimStart(s: string): (r: string)
    ensures r == [] || !IsJsWhiteSpace(r[0])
  {
    if s != [] && IsJsWhiteSpace(s[0]) then TrimStart(s[1..]) else s
  }

  /** `c` is a digit of base `radix` (10 or 16). */
  predicate IsDigit(c: char, radix: nat)
  {
    '0' <= c <= '9' || (radix == 16 && ('a' <= c <= 'f' || 'A' <= c <= 'F'))
  }

  /** The value of a digit character. */
  function DigitValue(c: char): nat
  {
    if '0' <= c <= '9' then c as int - '0' as int
    else if 'a' <= c <= 'f' then c as int - 'a' as int + 10
    else if 'A' <= c <= 'F' then c as int - 'A' as int + 10
    else 0
  }

  /** The longest prefix of `s` made of digits of base `radix`. */
  function DigitRun(s: string, radix: nat): (r: string)
    ensures r <= s
    ensures forall i :: 0 <= i < |r| ==> IsDigit(r[i], radix)
    ensures |r| < |s| ==> !IsDigit(s[|r|], radix)
  {
    if s == [] || !IsDigit(s[0], radix) then [] else [s[0]] + DigitRun(s[1..], radix)
  }

  /** The number a run of digits denotes, most significant digit first. */
  function DigitsValue(z: string, radix: nat): nat
  {
    if z == [] then 0 else DigitsValue(z[..|z| - 1], radix) * radix + DigitValue(z[|z| - 1])
  }

  /** `parseInt(s)` with no radix: leading white space is skipped, one sign is
      read, a `0x`/`0X` prefix selects base 16, and the longest run of digits that
      follows is the value. No digit at all is NaN, here `None`. */
  function ParseInt(s: string): Option<int>
  {
    var t := TrimStart(s);
    var signed := |t| > 0 && (t[0] == '-' || t[0] == '+');
    var magnitude := ParseUnsigned(if signed then t[1..] else t);
    if signed && t[0] == '-' && magnitude.Some? then Some(-magnitude.value) else magnitude
  }

  /** The digits after the sign: base 16 after a `0x`/`0X` prefix, else base 10. */
  function ParseUnsigned(u: string): Option<int>
  {
    if |u| >= 2 && u[0] == '0' && (u[1] == 'x' || u[1] == 'X') then ParseDigits(u[2..], 16)
    else ParseDigits(u, 10)
  }

  function ParseDigits(b: string, radix: nat): Option<int>
  {
    var z := DigitRun(b, radix);
    if z == [] then None else Some(DigitsValue(z, radix))
  }

  /** `String(n)` for a natural number: its decimal digits. */
  function DecimalString(n: nat): (r: string)
    ensures |r| >= 1 && ('1' <= r[0] <= '9' || r == "0")
    ensures forall i :: 0 <= i < |r| ==> '0' <= r[i] <= '9'
  {
    if n < 10 then [('0' as int + n) as char]
    else DecimalString(n / 10) + [('0' as int + n % 10) as char]
  }

  lemma {:induction false} DecimalDigitsValue(n: nat)
    ensures DigitsValue(DecimalString(n), 10) == n
  {
    var r := DecimalString(n);
    if n >= 10 {
      DecimalDigitsValue(n / 10);
      assert r[..|r| - 1] == DecimalString(n / 10);
    }
  }

  /** `String(n)` / `${n}` for any integer. */
  function IntString(n: int): string
  {
    if n < 0 then "-" + DecimalString(-n) else DecimalString(n)
  }

  lemma {:induction false} DigitRunStops(z: string, rest: string)
    requires forall i :: 0 <= i < |z| ==> '0' <= z[i] <= '9'
    requires rest == [] || !IsDigit(rest[0], 10)
    ensures DigitRun(z + rest, 10) == z
  {
    if z != [] {
      assert (z + rest)[1..] == z[1..] + rest;
      DigitRunStops(z[1..], rest);
    } else {
      assert z + rest == rest;
    }
  }

  lemma ParseUnsignedDecimal(m: nat, rest: string)
    requires rest == [] || (!IsDigit(rest[0], 10) && (m != 0 || (rest[0] != 'x' && rest[0] != 'X')))
    ensures ParseUnsigned(DecimalString(m) + rest) == Some(m)
  {
    var z := DecimalString(m);
    DecimalDigitsValue(m);
    DigitRunStops(z, rest);
    var u := z + rest;
    assert u[0] == z[0];
    assert |u| >= 2 && u[0] == '0' ==> z == "0" && u[1] == rest[0];
    assert ParseUnsigned(u) == ParseDigits(u, 10);
  }

  /** parseInt reads an integer written by String back from the front of a longer
      text, provided the text goes on with something that is not a digit; after a
      lone `0` an `x` or `X` is excluded too, since `0x` starts a hexadecimal
      prefix (`parseInt("0x")` is NaN). */
  lemma ParseIntIntString(n: int, rest: string)
    requires rest == [] || (!IsDigit(rest[0], 10) && (n != 0 || (rest[0] != 'x' && rest[0] != 'X')))
    ensures ParseInt(IntString(n) + rest) == Some(n)
  {
    if n < 0 {
      ParseNegative(-n, rest);
    } else {
      ParseNonNegative(n, rest);
    }
  }

  lemma ParseNonNegative(m: nat, rest: string)
    requires rest == [] || (!IsDigit(rest[0], 10) && (m != 0 || (rest[0] != 'x' && rest[0] != 'X')))
    ensures ParseInt(DecimalString(m) + rest) == Some(m)
  {
    ParseUnsignedDecimal(m, rest);
    var u := DecimalString(m) + rest;
    assert u[0] == DecimalString(m)[0];
    PlainParse(u);
  }

  lemma ParseNegative(m: nat, rest: string)
    requires m > 0 && (rest == [] || !IsDigit(rest[0], 10))
    ensures ParseInt("-" + DecimalString(m) + rest) == Some(-(m as int))
  {
    var z := DecimalString(m);
    ParseUnsignedDecimal(m, rest);
    assert |z| > 0 && '0' <= z[0] <= '9';
    MinusParse(z, rest, m);
  }

  /** A lone `0` followed by `x` is the empty hexadecimal prefix: NaN. */
  lemma ZeroHexPrefix(rest: string)
    requires rest == [] || !IsDigit(rest[0], 16)
    ensures ParseInt("0x" + rest) == None
  {
    var s := "0x" + rest;
    assert s[0] == '0' && s[1] == 'x' && s[2..] == rest;
    assert !IsJsWhiteSpace(s[0]);
    assert TrimStart(s) == s;
    assert DigitRun(rest, 16) == [];
  }

  /** Text that starts with a digit parses as its unsigned reading. */
  lemma PlainParse(u: string)
    requires |u| > 0 && '0' <= u[0] <= '9'
    ensures ParseInt(u) == ParseUnsigned(u)
  {
    assert !IsJsWhiteSpace(u[0]);
    assert TrimStart(u) == u;
  }

  /** Behind a minus sign, the same digits parse to the negated value. */
  lemma MinusParse(z: string, rest: string, m: int)
    requires |z| > 0 && '0' <= z[0] <= '9' && ParseUnsigned(z + rest) == Some(m)
    ensures ParseInt("-" + z + rest) == Some(-m)
  {
    var u, s := z + rest, "-" + z + rest;
    assert s[0] == '-' && s[1..] == u;
    assert !IsJsWhiteSpace(s[0]);
    assert TrimStart(s) == s;
    assert u[0] == z[0];
  }
}
