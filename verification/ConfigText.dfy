/** The string functions the configuration reader is built on, as functions on strings. */
module ConfigText {

  const NUL: char := '\0'

  /** `isspace` in the C locale. */
  predicate IsSpace(c: char) {
    c in {' ', '\t', '\n', '\U{0B}', '\U{0C}', '\r'}
  }

  predicate AllSpace(s: string) {
    forall i | 0 <= i < |s| :: IsSpace(s[i])
  }

  /** What `trim` leaves of a string. */
  function TrimLeft(s: string): string {
    if s != [] && IsSpace(s[0]) then TrimLeft(s[1..]) else s
  }

  function TrimRight(s: string): string {
    if s != [] && IsSpace(s[|s| - 1]) then TrimRight(s[..|s| - 1]) else s
  }

  function Trim(s: string): string {
    TrimRight(TrimLeft(s))
  }

  /** Neither end is white space. */
  predicate Trimmed(s: string) {
    s != [] ==> !IsSpace(s[0]) && !IsSpace(s[|s| - 1])
  }

  lemma {:induction false} TrimLeftPadding(pad: string, s: string)
    requires AllSpace(pad)
    ensures TrimLeft(pad + s) == TrimLeft(s)
  {
    if pad == [] {
      assert pad + s == s;
    } else {
      TrimLeftPadding(pad[1..], s);
      assert (pad + s)[1..] == pad[1..] + s;
    }
  }

  lemma {:induction false} TrimRightPadding(s: string, pad: string)
    requires AllSpace(pad)
    ensures TrimRight(s + pad) == TrimRight(s)
  {
    if pad == [] {
      assert s + pad == s;
    } else {
      var n := |pad| - 1;
      TrimRightPadding(s, pad[..n]);
      assert (s + pad)[..|s + pad| - 1] == s + pad[..n];
    }
  }

  /** Padding does not change what `trim` returns. */
  lemma TrimPadding(before: string, s: string, after: string)
    requires AllSpace(before) && AllSpace(after) && Trimmed(s)
    ensures Trim(before + s + after) == s
  {
    assert before + s + after == before + (s + after);
    TrimLeftPadding(before, s + after);
    if s == [] {
      assert s + after == after && after + [] == after;
      TrimLeftPadding(after, []);
    } else {
      TrimRightPadding(s, after);
    }
  }

  /** The fields `strtok_r` finds between commas: maximal nonempty runs without a comma. */
  function Tokens(s: string): (ts: seq<string>)
    ensures |ts| <= |s|
    decreases |s|
  {
    if s == [] then []
    else if s[0] == ',' then Tokens(s[1..])
    else [s[..Span(s)]] + Tokens(s[Span(s)..])
  }

  /** Length of the run without commas at the start. */
  function Span(s: string): (n: nat)
    ensures n <= |s| && (s != [] && s[0] != ',' ==> n > 0)
    ensures (forall i | 0 <= i < n :: s[i] != ',') && (n < |s| ==> s[n] == ',')
  {
    if s == [] || s[0] == ',' then 0 else 1 + Span(s[1..])
  }

  predicate NoComma(s: string) {
    forall i | 0 <= i < |s| :: s[i] != ','
  }

  lemma {:induction false} SpanOf(field: string, rest: string)
    requires NoComma(field) && (rest != [] ==> rest[0] == ',')
    ensures Span(field + rest) == |field|
  {
    if field == [] {
      assert field + rest == rest;
    } else {
      SpanOf(field[1..], rest);
      assert (field + rest)[1..] == field[1..] + rest;
    }
  }

  /** A nonempty field followed by a comma or the end is the first token. */
  lemma TokensOf(field: string, rest: string)
    requires field != [] && NoComma(field) && (rest != [] ==> rest[0] == ',')
    ensures Tokens(field + rest) == [field] + Tokens(rest)
  {
    SpanOf(field, rest);
    var s := field + rest;
    assert s[..|field|] == field && s[|field|..] == rest;
  }

  // ---------- numbers ----------

  predicate IsDigit(c: char) {
    '0' <= c <= '9'
  }

  function DigitValue(c: char): nat
    requires IsDigit(c)
  {
    c as int - '0' as int
  }

  /** The number the leading digits of `s` denote, after `acc`. */
  function Digits(s: string, acc: nat): nat {
    if s != [] && IsDigit(s[0]) then Digits(s[1..], 10 * acc + DigitValue(s[0])) else acc
  }

  /** The number a text begins with: white space, a sign, digits; what follows is ignored. */
  function Numeral(s: string): int {
    var t := TrimLeft(s);
    if t != [] && t[0] == '-' then 0 - Digits(t[1..], 0)
    else if t != [] && t[0] == '+' then Digits(t[1..], 0)
    else Digits(t, 0)
  }

  const LONG_MAX: int := 0x7FFF_FFFF_FFFF_FFFF
  const LONG_MIN: int := -0x8000_0000_0000_0000

  /** `strtol` in base 10: out of range it saturates. */
  function Strtol(s: string): int {
    if Numeral(s) > LONG_MAX then LONG_MAX else if Numeral(s) < LONG_MIN then LONG_MIN else Numeral(s)
  }

  /** `atoi`: `strtol` cut to a 32-bit `int`. */
  function Atoi(s: string): (n: int)
    ensures -0x8000_0000 <= n < 0x8000_0000
  {
    (Strtol(s) + 0x8000_0000) % 0x1_0000_0000 - 0x8000_0000
  }

  /** Decimal notation. */
  function Decimal(n: nat): (s: string)
    ensures s != [] && forall i | 0 <= i < |s| :: IsDigit(s[i])
  {
    (if n < 10 then [] else Decimal(n / 10)) + [('0' as int + n % 10) as char]
  }

  lemma {:induction false} DigitsAppend(s: string, c: char, acc: nat)
    requires IsDigit(c) && forall i | 0 <= i < |s| :: IsDigit(s[i])
    ensures Digits(s + [c], acc) == 10 * Digits(s, acc) + DigitValue(c)
  {
    if s == [] {
      assert (s + [c])[1..] == [];
    } else {
      DigitsAppend(s[1..], c, 10 * acc + DigitValue(s[0]));
      assert (s + [c])[1..] == s[1..] + [c];
    }
  }

  lemma {:induction false} DigitsOfDecimal(n: nat)
    ensures Digits(Decimal(n), 0) == n
  {
    var c := ('0' as int + n % 10) as char;
    if n < 10 {
      assert Decimal(n) == [c];
      DigitsAppend([], c, 0);
    } else {
      DigitsOfDecimal(n / 10);
      DigitsAppend(Decimal(n / 10), c, 0);
    }
  }

  /** `atoi` reads decimal notation back. */
  lemma AtoiOfDecimal(n: nat)
    requires n < 0x8000_0000
    ensures Atoi(Decimal(n)) == n
  {
    DigitsOfDecimal(n);
    var s := Decimal(n);
    assert IsDigit(s[0]);
  }

  /** Any other number it cuts to 32 bits. */
  lemma AtoiWraps(n: nat)
    requires n <= LONG_MAX
    ensures Atoi(Decimal(n)) == (n + 0x8000_0000) % 0x1_0000_0000 - 0x8000_0000
  {
    DigitsOfDecimal(n);
    var s := Decimal(n);
    assert IsDigit(s[0]);
  }

  /** A text reads as a number in `1..limit` if its number is, but for multiples of 2^32. */
  lemma AtoiPositive(s: string, limit: int)
    requires 0 < limit < 0x8000_0000
    ensures 0 < Atoi(s) <= limit <==> LONG_MIN <= Numeral(s) <= LONG_MAX && 0 < Numeral(s) % 0x1_0000_0000 <= limit
  {
    hide Numeral;
    Remainder(Strtol(s));
  }

  /** It reads as zero if its number is a multiple of 2^32, or too small. */
  lemma AtoiZero(s: string)
    ensures Atoi(s) == 0 <==> Numeral(s) < LONG_MIN || (Numeral(s) <= LONG_MAX && Numeral(s) % 0x1_0000_0000 == 0)
  {
    hide Numeral;
    Remainder(Strtol(s));
  }

  lemma Remainder(v: int)
    ensures var r := v % 0x1_0000_0000;
            (v + 0x8000_0000) % 0x1_0000_0000 - 0x8000_0000 == if r < 0x8000_0000 then r else r - 0x1_0000_0000
  {
  }

  lemma {:induction false} DecimalLength(n: nat)
    ensures n < 100000 ==> |Decimal(n)| <= 5
    ensures n < 10000 ==> |Decimal(n)| <= 4
    ensures n < 1000 ==> |Decimal(n)| <= 3
    ensures n < 100 ==> |Decimal(n)| <= 2
    ensures n < 10 ==> |Decimal(n)| <= 1
  {
    if n >= 10 { DecimalLength(n / 10); }
  }

  // ---------- addresses and keywords ----------

  /** `inet_pton` for AF_INET from inside a dotted quad: `octets` have begun, the current one
      has digits if `saw`, and its value is `value`. */
  predicate DottedFrom(s: string, octets: nat, saw: bool, value: nat) {
    if s == [] then octets == 4 && saw
    else if IsDigit(s[0]) then
      && !(saw && value == 0) && 10 * value + DigitValue(s[0]) <= 255 && (saw || octets < 4)
      && DottedFrom(s[1..], if saw then octets else octets + 1, true, 10 * value + DigitValue(s[0]))
    else
      s[0] == '.' && saw && octets < 4 && DottedFrom(s[1..], octets, false, 0)
  }

  /** An IPv4 address in dotted-decimal notation. */
  predicate IsAddress(s: string) {
    DottedFrom(s, 0, false, 0)
  }

  /** Digits the current octet can still take. */
  function Room(saw: bool, value: nat): nat {
    if !saw then 3 else if value == 0 then 0 else if value < 10 then 2 else if value < 100 then 1 else 0
  }

  lemma {:induction false} DottedShape(s: string, octets: nat, saw: bool, value: nat)
    requires DottedFrom(s, octets, saw, value) && octets <= 4 && (saw || value == 0)
    ensures forall i | 0 <= i < |s| :: IsDigit(s[i]) || s[i] == '.'
    ensures |s| <= Room(saw, value) + 4 * (if saw then 4 - octets else if octets < 4 then 3 - octets else 0)
  {
    if s != [] {
      if IsDigit(s[0]) {
        DottedShape(s[1..], if saw then octets else octets + 1, true, 10 * value + DigitValue(s[0]));
      } else {
        DottedShape(s[1..], octets, false, 0);
      }
    }
  }

  /** An address is short and free of commas, white space and '='. */
  lemma AddressShape(s: string)
    requires IsAddress(s)
    ensures 0 < |s| <= 15 && forall i | 0 <= i < |s| :: IsDigit(s[i]) || s[i] == '.'
  {
    DottedShape(s, 0, false, 0);
  }

  function Lower(c: char): char {
    if 'A' <= c <= 'Z' then (c as int + 32) as char else c
  }

  /** `strcasecmp(s, t) == 0`. */
  predicate SameIgnoringCase(s: string, t: string) {
    |s| == |t| && forall i | 0 <= i < |s| :: Lower(s[i]) == Lower(t[i])
  }

  /** A word in lower case. */
  predicate IsWord(word: string) {
    word != "" && forall i | 0 <= i < |word| :: 'a' <= word[i] <= 'z'
  }

  /** Such a word with any of its letters in upper case. */
  predicate InAnyCase(s: string, word: string) {
    |s| == |word| && forall i | 0 <= i < |s| :: s[i] == word[i] || s[i] as int == word[i] as int - 32
  }

  lemma SameInAnyCase(s: string, word: string)
    requires IsWord(word)
    ensures SameIgnoringCase(s, word) <==> InAnyCase(s, word)
  {
    if SameIgnoringCase(s, word) {
      forall i | 0 <= i < |s| ensures s[i] == word[i] || s[i] as int == word[i] as int - 32 {
        assert Lower(s[i]) == Lower(word[i]);
      }
    }
  }
}
