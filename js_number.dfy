/** JavaScript's global `parseInt(string)` called without a radix, as the ECMAScript
    language specification (ECMA-262, "parseInt ( string, radix )") defines it: skip
    leading white space, read an optional sign, switch to base 16 after a `0x` or `0X`
    prefix, read the longest run of digits, and give `NaN` (here `None`) when that run is
    empty. Characters after the run are ignored. */
module JsNumber {
  import opened Wrappers

  /** The white space and line terminators that `parseInt` skips (ECMA-262 WhiteSpace and
      LineTerminator, with every Unicode space separator written out). */
  predicate IsWhiteSpace(c: char) {
    c == '\t' || c == '\n' || c == '\U{000B}' || c == '\U{000C}' || c == '\r' ||
    c == ' ' || c == '\U{00A0}' || c == '\U{1680}' || ('\U{2000}' <= c <= '\U{200A}') ||
    c == '\U{2028}' || c == '\U{2029}' || c == '\U{202F}' || c == '\U{205F}' ||
    c == '\U{3000}' || c == '\U{FEFF}'
  }

  /** `s` with its leading white space removed. */
  function TrimStart(s: string): string {
    if s != [] && IsWhiteSpace(s[0]) then TrimStart(s[1..]) else s
  }

  /** `TrimStart` removes exactly the leading white space: what it removes is white
      space, and what is left is a suffix of `s` that does not start with white space. */
  lemma {:induction false} TrimStartSpec(s: string)
    ensures |TrimStart(s)| <= |s| && TrimStart(s) == s[|s| - |TrimStart(s)|..]
    ensures TrimStart(s) == [] || !IsWhiteSpace(TrimStart(s)[0])
    ensures forall i :: 0 <= i < |s| - |TrimStart(s)| ==> IsWhiteSpace(s[i])
  {
    if s != [] && IsWhiteSpace(s[0]) {
      var t := s[1..];
      TrimStartSpec(t);
      assert TrimStart(s) == TrimStart(t);
      forall i | 1 <= i < |s| - |TrimStart(s)| ensures IsWhiteSpace(s[i]) {
        assert s[i] == t[i - 1];
      }
    }
  }

  /** The two bases `parseInt` reads without a radix argument. */
  type Radix = r: nat | r == 10 || r == 16 witness 10

  /** The value of `c` as a digit in base `radix`, or -1 when it is not one. */
  function DigitValue(c: char, radix: Radix): (d: int)
    ensures -1 <= d < radix
  {
    if '0' <= c <= '9' then c as int - '0' as int
    else if radix == 16 && 'a' <= c <= 'f' then c as int - 'a' as int + 10
    else if radix == 16 && 'A' <= c <= 'F' then c as int - 'A' as int + 10
    else -1
  }

  predicate IsDigit(c: char, radix: Radix) {
    0 <= DigitValue(c, radix) < radix
  }

  /** The longest prefix of `s` made of base-`radix` digits. */
  function DigitRun(s: string, radix: Radix): (r: string)
    ensures |r| <= |s| && r == s[..|r|]
    ensures forall i :: 0 <= i < |r| ==> IsDigit(r[i], radix)
    ensures |r| == |s| || !IsDigit(s[|r|], radix)
  {
    if s != [] && IsDigit(s[0], radix) then [s[0]] + DigitRun(s[1..], radix) else []
  }

  /** The number a run of base-`radix` digits denotes, most significant digit first. */
  function Value(ds: string, radix: Radix): int
    requires forall i :: 0 <= i < |ds| ==> IsDigit(ds[i], radix)
  {
    if ds == [] then 0
    else
      assert IsDigit(ds[|ds| - 1], radix);
      Value(ds[..|ds| - 1], radix) * radix + DigitValue(ds[|ds| - 1], radix)
  }

  /** `parseInt(s)`: `None` is `NaN`. A negative zero is the integer 0. */
  function ParseInt(s: string): Option<int> {
    var t := TrimStart(s);
    if t != [] && t[0] == '-' then Negated(ParseUnsigned(t[1..]))
    else if t != [] && t[0] == '+' then ParseUnsigned(t[1..])
    else ParseUnsigned(t)
  }

  function Negated(o: Option<int>): Option<int> {
    if o.Some? then Some(-o.value) else None
  }

  /** What `parseInt` reads after the white space and the sign: base 16 after a `0x` or
      `0X` prefix, base 10 otherwise; `None` when no digit follows. */
  function ParseUnsigned(u: string): Option<int> {
    var hex := |u| >= 2 && u[0] == '0' && (u[1] == 'x' || u[1] == 'X');
    var radix: Radix := if hex then 16 else 10;
    var digits := DigitRun(if hex then u[2..] else u, radix);
    if digits == [] then None else Some(Value(digits, radix))
  }

  /** Decimal notation of a natural number, the partner that `ParseInt` reads back. */
  function ShowNat(n: nat): (r: string)
    ensures r != []
    ensures forall i :: 0 <= i < |r| ==> IsDigit(r[i], 10)
  {
    var last := ['0' + (n % 10) as char];
    if n < 10 then last else ShowNat(n / 10) + last
  }

  /** Decimal notation of an integer, with a leading `-` when it is negative. */
  function Show(n: int): string {
    if n < 0 then "-" + ShowNat(-n) else ShowNat(n)
  }

  lemma {:induction false} ValueShowNat(n: nat)
    ensures Value(ShowNat(n), 10) == n
  {
    var s := ShowNat(n);
    if n >= 10 {
      ValueShowNat(n / 10);
      assert s[..|s| - 1] == ShowNat(n / 10);
    }
  }

  /** A run of digits followed by something that is not a digit is read up to the run. */
  lemma {:induction false} DigitRunPrefix(ds: string, tail: string, radix: Radix)
    requires forall i :: 0 <= i < |ds| ==> IsDigit(ds[i], radix)
    requires tail == [] || !IsDigit(tail[0], radix)
    ensures DigitRun(ds + tail, radix) == ds
  {
    if ds != [] {
      assert (ds + tail)[1..] == ds[1..] + tail;
      DigitRunPrefix(ds[1..], tail, radix);
    }
  }

  /** The decimal notation of a natural number is read back whatever follows it, unless
      the notation is `0` and an `x` or `X` follows, which switches to base 16. */
  lemma {:induction false} ParseUnsignedShowNat(m: nat, tail: string)
    requires tail == [] || !IsDigit(tail[0], 10)
    requires m == 0 ==> tail == [] || (tail[0] != 'x' && tail[0] != 'X')
    ensures ParseUnsigned(ShowNat(m) + tail) == Some(m)
  {
    var u := ShowNat(m);
    var s := u + tail;
    ValueShowNat(m);
    DigitRunPrefix(u, tail, 10);
    assert s[0] == u[0];
    if |u| >= 2 {
      assert s[1] == u[1] && IsDigit(u[1], 10);
    } else {
      assert m < 10 && u == ['0' + m as char];
      assert m == 0 ==> tail == [] || s[1] == tail[0];
    }
    assert !(|s| >= 2 && s[0] == '0' && (s[1] == 'x' || s[1] == 'X'));
  }

  /** Text that does not start with white space is not trimmed. */
  lemma {:induction false} TrimStartNoWhiteSpace(s: string)
    requires s != [] && !IsWhiteSpace(s[0])
    ensures TrimStart(s) == s
  {
  }

  /** `parseInt` reads back the decimal notation of every natural number, with or
      without text after it that does not start with a digit (nor, after `0`, with `x` or
      `X`). */
  lemma {:induction false} ParseIntShowNat(m: nat, tail: string)
    requires tail == [] || !IsDigit(tail[0], 10)
    requires m == 0 ==> tail == [] || (tail[0] != 'x' && tail[0] != 'X')
    ensures ParseInt(ShowNat(m) + tail) == Some(m)
  {
    var u := ShowNat(m);
    var s := u + tail;
    ParseUnsignedShowNat(m, tail);
    assert IsDigit(u[0], 10);
    assert s[0] == u[0];
    TrimStartNoWhiteSpace(s);
  }

  /** After a leading `-`, `parseInt` negates what follows. */
  lemma {:induction false} ParseIntMinus(u: string)
    ensures ParseInt("-" + u) == Negated(ParseUnsigned(u))
  {
    var s := "-" + u;
    assert s[0] == '-';
    TrimStartNoWhiteSpace(s);
    assert s[1..] == u;
  }

  /** A negative number's notation, `-` and the numeral, reads back the same way. */
  lemma {:induction false} ParseIntShowNegative(m: nat)
    ensures ParseInt("-" + ShowNat(m)) == Some(-(m as int))
  {
    ParseUnsignedShowNat(m, "");
    assert ShowNat(m) + "" == ShowNat(m);
    ParseIntMinus(ShowNat(m));
  }

  /** `parseInt` reads back the decimal notation of every integer. */
  lemma {:induction false} ParseIntShow(n: int)
    ensures ParseInt(Show(n)) == Some(n)
  {
    if n < 0 {
      ParseIntShowNegative(-n);
    } else {
      ParseIntShowNat(n, "");
      assert ShowNat(n) + "" == Show(n);
    }
  }

  /** Leading white space does not change what `parseInt` reads. */
  lemma {:induction false} ParseIntSkipsWhiteSpace(c: char, s: string)
    requires IsWhiteSpace(c)
    ensures ParseInt([c] + s) == ParseInt(s)
  {
    assert ([c] + s)[1..] == s;
  }

  /** Text that starts with a letter, and the empty text, read as `NaN`. */
  lemma {:induction false} ParseIntLetter(s: string)
    requires s == [] || 'a' <= s[0] <= 'z' || 'A' <= s[0] <= 'Z'
    ensures ParseInt(s) == None
  {
    if s != [] {
      assert !IsWhiteSpace(s[0]);
      TrimStartNoWhiteSpace(s);
      assert !IsDigit(s[0], 10);
      assert DigitRun(s, 10) == [];
    }
  }

  /** A `0x` prefix with no hexadecimal digit after it reads as `NaN`. */
  lemma {:induction false} ParseIntBareHexPrefix(tail: string)
    requires tail == [] || !IsDigit(tail[0], 16)
    ensures ParseInt("0x" + tail) == None
  {
    TrimStartNoWhiteSpace("0x" + tail);
    assert ("0x" + tail)[2..] == tail;
  }

}
