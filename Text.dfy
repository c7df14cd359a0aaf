/** The text handling the request parser relies on: `str::split_whitespace` and the
    `str::parse` of Rust's integer types, with the decimal printing the other end of
    the protocol uses. */
module Text {
  import opened Wrappers

  // ---------------------------------------------------------------- split_whitespace

  /** Rust's `char::is_whitespace`: the characters with the Unicode `White_Space`
      property. */
  predicate IsWhite(c: char) {
    ('\U{0009}' <= c <= '\U{000D}') || c == ' ' || c == '\U{0085}' || c == '\U{00A0}' ||
    c == '\U{1680}' || ('\U{2000}' <= c <= '\U{200A}') || c == '\U{2028}' || c == '\U{2029}' ||
    c == '\U{202F}' || c == '\U{205F}' || c == '\U{3000}'
  }

  /** A token of `split_whitespace`: non-empty, without whitespace. */
  predicate IsToken(t: string) {
    t != [] && forall i :: 0 <= i < |t| ==> !IsWhite(t[i])
  }

  /** The longest prefix of `s` without whitespace. */
  function Word(s: string): (w: string)
    ensures |w| <= |s| && w == s[..|w|]
    ensures forall i :: 0 <= i < |w| ==> !IsWhite(w[i])
    ensures |w| < |s| ==> IsWhite(s[|w|])
  {
    if s == [] || IsWhite(s[0]) then [] else [s[0]] + Word(s[1..])
  }

  /** The tokens `split_whitespace` yields, in order. */
  function Tokens(s: string): (ts: seq<string>)
    ensures forall i :: 0 <= i < |ts| ==> IsToken(ts[i])
    decreases |s|
  {
    if s == [] then []
    else if IsWhite(s[0]) then Tokens(s[1..])
    else
      var w := Word(s);
      [w] + Tokens(s[|w|..])
  }

  lemma {:induction false} WordOf(t: string, r: string)
    requires forall i :: 0 <= i < |t| ==> !IsWhite(t[i])
    requires r == [] || IsWhite(r[0])
    ensures Word(t + r) == t
    decreases |t|
  {
    if t != [] {
      assert (t + r)[1..] == t[1..] + r;
      WordOf(t[1..], r);
    } else {
      assert t + r == r;
    }
  }

  /** A token followed by the end of the line or by whitespace is read whole. */
  lemma TokensCons(t: string, r: string)
    requires IsToken(t) && (r == [] || IsWhite(r[0]))
    ensures Tokens(t + r) == [t] + Tokens(r)
  {
    WordOf(t, r);
    assert (t + r)[0] == t[0];
    assert (t + r)[|t|..] == r;
  }

  /** A protocol line: the words separated by single spaces, ended by a newline. */
  function Line(ws: seq<string>): string {
    if ws == [] then "\n"
    else if |ws| == 1 then ws[0] + "\n"
    else ws[0] + " " + Line(ws[1..])
  }

  /** `split_whitespace` recovers the words of a line. */
  lemma {:induction false} LineTokens(ws: seq<string>)
    requires forall i :: 0 <= i < |ws| ==> IsToken(ws[i])
    ensures Tokens(Line(ws)) == ws
    decreases |ws|
  {
    if ws == [] {
      assert Tokens("\n") == Tokens("");
    } else if |ws| == 1 {
      TokensCons(ws[0], "\n");
      assert Tokens("\n") == Tokens("");
    } else {
      assert ws[0] + " " + Line(ws[1..]) == ws[0] + (" " + Line(ws[1..]));
      TokensCons(ws[0], " " + Line(ws[1..]));
      assert (" " + Line(ws[1..]))[1..] == Line(ws[1..]);
      LineTokens(ws[1..]);
    }
  }

  // ---------------------------------------------------------------- integers

  predicate IsDigit(c: char) {
    '0' <= c <= '9'
  }

  predicate AllDigits(s: string) {
    forall i :: 0 <= i < |s| ==> IsDigit(s[i])
  }

  /** The value of a string of decimal digits. */
  function DigitsValue(s: string): nat
    requires AllDigits(s)
  {
    if s == [] then 0 else 10 * DigitsValue(s[..|s| - 1]) + (s[|s| - 1] as int - '0' as int)
  }

  /** `str::parse` for an integer type with range `lo ..= hi`: one optional sign (`-`
      only for a signed type) followed by at least one decimal digit, and the value in
      range; anything else is an error. */
  function ParseInt(t: string, signed: bool, lo: int, hi: int): (r: Option<int>)
    ensures r.Some? ==> lo <= r.value <= hi
  {
    if t == [] then None
    else if (t[0] == '+' || t[0] == '-') && |t| == 1 then None
    else
      var negative := signed && t[0] == '-';
      var digits := if t[0] == '+' || negative then t[1..] else t;
      if !AllDigits(digits) then None
      else
        var v: int := if negative then -(DigitsValue(digits) as int) else DigitsValue(digits);
        if lo <= v <= hi then Some(v) else None
  }

  const U8Max: int := 0xFF
  const U32Max: int := 0xFFFF_FFFF
  const I32Min: int := -0x8000_0000
  const I32Max: int := 0x7FFF_FFFF
  const I64Min: int := -0x8000_0000_0000_0000
  const I64Max: int := 0x7FFF_FFFF_FFFF_FFFF

  function ParseU8(t: string): Option<int> {
    ParseInt(t, false, 0, U8Max)
  }

  function ParseU32(t: string): Option<int> {
    ParseInt(t, false, 0, U32Max)
  }

  function ParseI32(t: string): Option<int> {
    ParseInt(t, true, I32Min, I32Max)
  }

  function ParseI64(t: string): Option<int> {
    ParseInt(t, true, I64Min, I64Max)
  }

  // ---------------------------------------------------------------- printing

  /** The decimal digits of `n`, as `{}` formats an unsigned integer. */
  function Decimal(n: nat): (s: string)
    ensures s != [] && AllDigits(s)
  {
    if n < 10 then [('0' as int + n) as char]
    else Decimal(n / 10) + [('0' as int + n % 10) as char]
  }

  /** `{}` of a signed integer. */
  function IntText(v: int): string {
    if v < 0 then "-" + Decimal(-v) else Decimal(v)
  }

  lemma {:induction false} DecimalValue(n: nat)
    ensures DigitsValue(Decimal(n)) == n
  {
    if n >= 10 {
      DecimalValue(n / 10);
      assert Decimal(n)[..|Decimal(n)| - 1] == Decimal(n / 10);
    }
  }

  lemma DecimalToken(n: nat)
    ensures IsToken(Decimal(n))
  {
  }

  lemma IntTextToken(v: int)
    ensures IsToken(IntText(v))
  {
    DecimalToken(if v < 0 then -v else v);
  }

  /** Parsing reads back what `{}` printed, for every value of the type. */
  lemma ParseIntText(v: int, signed: bool, lo: int, hi: int)
    requires lo <= v <= hi && (v < 0 ==> signed)
    ensures ParseInt(IntText(v), signed, lo, hi) == Some(v)
  {
    if v < 0 {
      ParseNegative(-v, signed, lo, hi, IntText(v));
    } else {
      ParseDecimal(v, signed, lo, hi, IntText(v));
    }
  }

  lemma ParseDecimal(n: nat, signed: bool, lo: int, hi: int, t: string)
    requires lo <= n <= hi && t == Decimal(n)
    ensures ParseInt(t, signed, lo, hi) == Some(n)
  {
    DecimalValue(n);
    assert IsDigit(t[0]);
  }

  lemma ParseNegative(n: nat, signed: bool, lo: int, hi: int, t: string)
    requires signed && lo <= -(n as int) <= hi && n > 0 && t == "-" + Decimal(n)
    ensures ParseInt(t, signed, lo, hi) == Some(-(n as int))
  {
    DecimalValue(n);
    assert t[1..] == Decimal(n);
  }
}
