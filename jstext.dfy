/**
 * The few pieces of ECMAScript string and number semantics the modelled
 * code relies on: `Number.prototype.toString(radix)` for integers,
 * `padStart`, `join`, `split` on a one-character separator, `trim`,
 * `startsWith`, `includes` and `parseInt`.
 */
module JsText {
  import opened Wrappers

  /** Lower-case digit for `0 <= d < 16`, as `toString(16)` writes it. */
  function DigitChar(d: nat): char
    requires d < 16
  {
    if d < 10 then ('0' as int + d) as char else ('a' as int + d - 10) as char
  }

  lemma DigitCharValue(d: nat)
    requires d < 16
    ensures DigitValue(DigitChar(d)) == d
  {
  }

  /** Value of a digit character in any radix up to 36, or -1. */
  function DigitValue(c: char): int
  {
    if '0' <= c <= '9' then c as int - '0' as int
    else if 'a' <= c <= 'z' then c as int - 'a' as int + 10
    else if 'A' <= c <= 'Z' then c as int - 'A' as int + 10
    else -1
  }

  predicate IsDigit(c: char, radix: nat)
  {
    0 <= DigitValue(c) < radix
  }

  predicate AllDigits(s: string, radix: nat)
  {
    forall i :: 0 <= i < |s| ==> IsDigit(s[i], radix)
  }

  lemma {:induction false} NatToStringDigits(n: nat, radix: nat)
    requires radix == 10 || radix == 16
    ensures AllDigits(NatToString(n, radix), radix)
    decreases n
  {
    if n < radix {
      DigitCharValue(n);
    } else {
      DigitCharValue(n % radix);
      NatToStringDigits(n / radix, radix);
      var hi := NatToString(n / radix, radix);
      var s := hi + [DigitChar(n % radix)];
      assert forall i :: 0 <= i < |hi| ==> s[i] == hi[i];
    }
  }

  /** Digits of `n` in `radix`, most significant first, no leading zeros. */
  function NatToString(n: nat, radix: nat): (r: string)
    requires radix == 10 || radix == 16
    ensures |r| >= 1
    decreases n
  {
    if n < radix then [DigitChar(n)]
    else NatToString(n / radix, radix) + [DigitChar(n % radix)]
  }

  /** `n.toString()` for an integral Number. */
  function IntToString(n: int): string
  {
    if n < 0 then "-" + NatToString(-n, 10) else NatToString(n, 10)
  }

  /** `n.toString(16)` for a non-negative integral Number. */
  function Hex(n: nat): string
  {
    NatToString(n, 16)
  }

  function Repeat(c: char, n: nat): (r: string)
    ensures |r| == n
  {
    if n == 0 then [] else [c] + Repeat(c, n - 1)
  }

  /** `s.padStart(width, [fill])`. */
  function PadStart(s: string, width: nat, fill: char): (r: string)
    ensures |r| == if |s| < width then width else |s|
  {
    if |s| < width then Repeat(fill, width - |s|) + s else s
  }

  lemma {:induction false} RepeatFill(c: char, n: nat)
    ensures forall i :: 0 <= i < n ==> Repeat(c, n)[i] == c
  {
    if n > 0 {
      RepeatFill(c, n - 1);
      assert Repeat(c, n) == [c] + Repeat(c, n - 1);
    }
  }

  /** The padded text ends with `s` and is filled with `fill` in front of it. */
  lemma PadStartShape(s: string, width: nat, fill: char)
    ensures var r := PadStart(s, width, fill);
      r[|r| - |s|..] == s && forall i :: 0 <= i < |r| - |s| ==> r[i] == fill
  {
    if |s| < width {
      RepeatFill(fill, width - |s|);
      var r := PadStart(s, width, fill);
      assert r == Repeat(fill, width - |s|) + s;
      assert r[|r| - |s|..] == s;
    }
  }

  /** `parts.join(sep)`. */
  function Join(parts: seq<string>, sep: string): string
  {
    if |parts| == 0 then ""
    else if |parts| == 1 then parts[0]
    else parts[0] + sep + Join(parts[1..], sep)
  }

  /** `parts.join('')`. */
  function Concat(parts: seq<string>): string
  {
    if parts == [] then "" else parts[0] + Concat(parts[1..])
  }

  lemma {:induction false} ConcatAppend(a: seq<string>, b: seq<string>)
    ensures Concat(a + b) == Concat(a) + Concat(b)
  {
    if a == [] {
      assert a + b == b;
    } else {
      assert (a + b)[0] == a[0];
      assert (a + b)[1..] == a[1..] + b;
      ConcatAppend(a[1..], b);
      calc {
        Concat(a + b);
        a[0] + Concat(a[1..] + b);
        a[0] + (Concat(a[1..]) + Concat(b));
        (a[0] + Concat(a[1..])) + Concat(b);
      }
    }
  }

  /** `s.split(sep)` for a one-character string separator. */
  function SplitOn(s: string, sep: char): (r: seq<string>)
    ensures |r| >= 1
  {
    if s == [] then [""]
    else
      var rest := SplitOn(s[1..], sep);
      if s[0] == sep then [""] + rest
      else [[s[0]] + rest[0]] + rest[1..]
  }

  lemma {:induction false} SplitOnParts(s: string, sep: char)
    ensures forall k :: 0 <= k < |SplitOn(s, sep)| ==> sep !in SplitOn(s, sep)[k]
  {
    if s != [] {
      SplitOnParts(s[1..], sep);
    }
  }

  /** Splitting on a character and joining with it gives the string back. */
  lemma {:induction false} SplitOnJoin(s: string, sep: char)
    ensures Join(SplitOn(s, sep), [sep]) == s
  {
    if s != [] {
      var rest := SplitOn(s[1..], sep);
      SplitOnJoin(s[1..], sep);
      if s[0] == sep {
        assert SplitOn(s, sep) == [""] + rest;
        assert ([""] + rest)[1..] == rest;
      } else {
        var r := SplitOn(s, sep);
        assert r == [[s[0]] + rest[0]] + rest[1..];
        if |rest| == 1 {
          assert Join(rest, [sep]) == rest[0];
        } else {
          assert r[1..] == rest[1..];
          assert Join(rest, [sep]) == rest[0] + [sep] + Join(rest[1..], [sep]);
        }
      }
    }
  }

  /** ECMAScript WhiteSpace and LineTerminator code points, removed by `trim`. */
  predicate IsJsSpace(c: char)
  {
    var n := c as int;
    n == 0x09 || n == 0x0A || n == 0x0B || n == 0x0C || n == 0x0D || n == 0x20
    || n == 0xA0 || n == 0x1680 || (0x2000 <= n <= 0x200A) || n == 0x2028
    || n == 0x2029 || n == 0x202F || n == 0x205F || n == 0x3000 || n == 0xFEFF
  }

  function TrimStart(s: string): (r: string)
    ensures |r| <= |s| && r == s[|s| - |r|..]
    ensures forall i :: 0 <= i < |s| - |r| ==> IsJsSpace(s[i])
    ensures r == [] || !IsJsSpace(r[0])
  {
    if s != [] && IsJsSpace(s[0]) then TrimStart(s[1..]) else s
  }

  function TrimEnd(s: string): (r: string)
    ensures |r| <= |s| && r == s[..|r|]
    ensures forall i :: |r| <= i < |s| ==> IsJsSpace(s[i])
    ensures r == [] || !IsJsSpace(r[|r| - 1])
  {
    if s != [] && IsJsSpace(s[|s| - 1]) then TrimEnd(s[..|s| - 1]) else s
  }

  /** `s.trim()`: the string without its leading and trailing white space. */
  function Trim(s: string): (r: string)
    ensures |r| <= |TrimStart(s)| <= |s|
    ensures r == s[|s| - |TrimStart(s)|..|s| - |TrimStart(s)| + |r|]
    ensures forall i :: 0 <= i < |s| - |TrimStart(s)| ==> IsJsSpace(s[i])
    ensures forall i :: |s| - |TrimStart(s)| + |r| <= i < |s| ==> IsJsSpace(s[i])
    ensures r == [] || (!IsJsSpace(r[0]) && !IsJsSpace(r[|r| - 1]))
  {
    TrimEnd(TrimStart(s))
  }

  predicate StartsWith(s: string, prefix: string)
  {
    |prefix| <= |s| && s[..|prefix|] == prefix
  }

  /** `s.includes(sub)`. */
  predicate Includes(s: string, sub: string)
  {
    exists i :: 0 <= i <= |s| - |sub| && OccursAt(s, sub, i)
  }

  predicate OccursAt(s: string, sub: string, i: int)
  {
    0 <= i <= |s| - |sub| && s[i..i + |sub|] == sub
  }

  /** Length of the longest prefix of `s` made of digits valid in `radix`. */
  function DigitRun(s: string, radix: nat): (k: nat)
    ensures k <= |s|
    ensures AllDigits(s[..k], radix)
    ensures k < |s| ==> !IsDigit(s[k], radix)
  {
    if s != [] && IsDigit(s[0], radix) then 1 + DigitRun(s[1..], radix) else 0
  }

  /** Value of a string of digits, most significant first. */
  function DigitsValue(s: string, radix: nat): nat
    requires AllDigits(s, radix)
  {
    if s == [] then 0 else DigitsValue(s[..|s| - 1], radix) * radix + DigitValue(s[|s| - 1])
  }

  /**
   * `parseInt(s, radix)` for radix 10 or 16: leading white space is skipped, an
   * optional sign is read, radix 16 also skips a `0x`/`0X` prefix, and then the
   * longest run of digits is read; no digit at all gives NaN, modelled as None.
   */
  function ParseInt(s: string, radix: nat): (r: Option<int>)
    requires radix == 10 || radix == 16
  {
    var t := TrimStart(s);
    var neg := |t| > 0 && t[0] == '-';
    var u := if |t| > 0 && (t[0] == '-' || t[0] == '+') then t[1..] else t;
    var v := if radix == 16 && (StartsWith(u, "0x") || StartsWith(u, "0X")) then u[2..] else u;
    var k := DigitRun(v, radix);
    if k == 0 then None
    else
      var magnitude: int := DigitsValue(v[..k], radix);
      Some(if neg then -magnitude else magnitude)
  }

  lemma {:induction false} DigitsValueOfNat(n: nat, radix: nat)
    requires radix == 10 || radix == 16
    ensures AllDigits(NatToString(n, radix), radix) && DigitsValue(NatToString(n, radix), radix) == n
    decreases n
  {
    var s := NatToString(n, radix);
    NatToStringDigits(n, radix);
    if n < radix {
      DigitCharValue(n);
      assert s[..|s| - 1] == [];
    } else {
      DigitCharValue(n % radix);
      NatToStringDigits(n / radix, radix);
      var hi := NatToString(n / radix, radix);
      var q, d := n / radix, n % radix;
      assert q < n by { if radix == 10 { assert q == n / 10; } else { assert q == n / 16; } }
      assert s == hi + [DigitChar(d)];
      assert s[..|s| - 1] == hi;
      assert s[|s| - 1] == DigitChar(d);
      DigitsValueOfNat(q, radix);
      assert DigitsValue(s, radix) == DigitsValue(hi, radix) * radix + DigitValue(DigitChar(d));
      assert DigitsValue(hi, radix) == q;
      if radix == 10 { assert n == q * 10 + d; } else { assert n == q * 16 + d; }
    }
  }

  /** `parseInt` reads back what `toString` writes. */
  lemma ParseIntOfToString(n: int)
    ensures ParseInt(IntToString(n), 10) == Some(n)
  {
    if n < 0 {
      var m: nat := -n;
      assert IntToString(n) == "-" + NatToString(m, 10);
      ParseNegative(m);
      assert -(m as int) == n;
    } else {
      assert IntToString(n) == NatToString(n, 10);
      ParseDigits(n);
    }
  }

  lemma ParseDigits(m: nat)
    ensures ParseInt(NatToString(m, 10), 10) == Some(m)
  {
    var d := NatToString(m, 10);
    DigitsValueOfNat(m, 10);
    RunOfDigits(d, 10);
    DigitIsNotSpace(d[0], 10);
    NoLeadingSpace(d);
  }

  lemma ParseNegative(m: nat)
    requires m > 0
    ensures ParseInt("-" + NatToString(m, 10), 10) == Some(-(m as int))
  {
    var d := NatToString(m, 10);
    DigitsValueOfNat(m, 10);
    RunOfDigits(d, 10);
    var s := "-" + d;
    assert s[0] == '-';
    NoLeadingSpace(s);
    assert s[1..] == d;
  }

  lemma NoLeadingSpace(s: string)
    requires s != [] && !IsJsSpace(s[0])
    ensures TrimStart(s) == s
  {
  }

  lemma DigitIsNotSpace(c: char, radix: nat)
    requires radix == 10 || radix == 16
    requires IsDigit(c, radix)
    ensures !IsJsSpace(c) && c != '-' && c != '+'
  {
  }

  /** `parseInt(s, 16)` reads back a `0x`-prefixed `toString(16)`. */
  lemma ParseIntOfHex(n: nat)
    ensures ParseInt("0x" + Hex(n), 16) == Some(n)
  {
    var h := Hex(n);
    DigitsValueOfNat(n, 16);
    RunOfDigits(h, 16);
    var x := "0x" + h;
    assert TrimStart(x) == x;
    assert x[0] == '0';
    assert StartsWith(x, "0x");
    assert x[2..] == h;
  }

  lemma {:induction false} RunOfDigits(s: string, radix: nat)
    requires AllDigits(s, radix)
    ensures DigitRun(s, radix) == |s| && s[..|s|] == s
  {
    if s != [] {
      assert IsDigit(s[0], radix);
      assert AllDigits(s[1..], radix) by {
        forall i | 0 <= i < |s[1..]| ensures IsDigit(s[1..][i], radix) {
          assert s[1..][i] == s[i + 1];
        }
      }
      RunOfDigits(s[1..], radix);
    }
  }
}
