/** What the functions of `ConfigText` make of a text, said on the text itself. */
module TextMeaning {
  import opened ConfigText

  // ---------- white space ----------

  /** White space is the blank and the five control characters from tab to carriage return. */
  lemma SpaceCharacters(c: char)
    ensures IsSpace(c) <==> c as int == 32 || 9 <= c as int <= 13
  {
  }

  lemma {:induction false} TrimLeftParts(s: string) returns (before: string)
    ensures AllSpace(before) && s == before + TrimLeft(s)
    ensures TrimLeft(s) != "" ==> !IsSpace(TrimLeft(s)[0])
  {
    if s != "" && IsSpace(s[0]) {
      var rest := TrimLeftParts(s[1..]);
      before := [s[0]] + rest;
    } else {
      before := "";
    }
  }

  lemma {:induction false} TrimRightParts(s: string) returns (after: string)
    ensures AllSpace(after) && s == TrimRight(s) + after
    ensures TrimRight(s) != "" ==> !IsSpace(TrimRight(s)[|TrimRight(s)| - 1])
  {
    if s != "" && IsSpace(s[|s| - 1]) {
      var rest := TrimRightParts(s[..|s| - 1]);
      after := rest + [s[|s| - 1]];
    } else {
      after := "";
    }
  }

  /** Every text is what `trim` returns, with white space around it. */
  lemma TrimParts(s: string) returns (before: string, after: string)
    ensures AllSpace(before) && AllSpace(after) && Trimmed(Trim(s)) && s == before + Trim(s) + after
  {
    before := TrimLeftParts(s);
    after := TrimRightParts(TrimLeft(s));
    var t := Trim(s);
    if t != "" { assert t[0] == TrimLeft(s)[0]; }
    assert before + (t + after) == before + t + after;
  }

  /** White space around a text makes no difference to what `trim` returns. */
  lemma TrimAround(before: string, s: string, after: string)
    requires AllSpace(before) && AllSpace(after)
    ensures Trim(before + s + after) == Trim(s)
  {
    var b, a := TrimParts(s);
    hide Trim;
    TrimPadding(before + b, Trim(s), a + after);
    assert before + (b + Trim(s) + a) + after == before + b + Trim(s) + (a + after);
  }

  // ---------- numbers ----------

  predicate AllDigits(s: string) {
    forall i | 0 <= i < |s| :: IsDigit(s[i])
  }

  /** The number some digits stand for, in base ten. */
  function Value(ds: string): nat
    requires AllDigits(ds)
  {
    if ds == "" then 0 else 10 * Value(ds[..|ds| - 1]) + DigitValue(ds[|ds| - 1])
  }

  lemma {:induction false} DigitsOf(ds: string, rest: string)
    requires AllDigits(ds) && (rest != "" ==> !IsDigit(rest[0]))
    ensures Digits(ds + rest, 0) == Value(ds)
  {
    DigitsStop(ds, rest, 0);
    DigitsAreValue(ds);
  }

  lemma {:induction false} DigitsStop(ds: string, rest: string, acc: nat)
    requires AllDigits(ds) && (rest != "" ==> !IsDigit(rest[0]))
    ensures Digits(ds + rest, acc) == Digits(ds, acc)
  {
    if ds == "" {
      assert ds + rest == rest;
    } else {
      assert (ds + rest)[1..] == ds[1..] + rest;
      DigitsStop(ds[1..], rest, 10 * acc + DigitValue(ds[0]));
    }
  }

  lemma {:induction false} DigitsAreValue(ds: string)
    requires AllDigits(ds)
    ensures Digits(ds, 0) == Value(ds)
  {
    if ds != "" {
      var n := |ds| - 1;
      DigitsAreValue(ds[..n]);
      DigitsAppend(ds[..n], ds[n], 0);
      assert ds == ds[..n] + [ds[n]];
    }
  }

  /** A number is read after white space and a sign, up to the first character that is no digit;
      without digits it is zero. */
  lemma NumeralMeaning(pad: string, sign: string, ds: string, rest: string)
    requires AllSpace(pad) && sign in {"", "+", "-"} && AllDigits(ds) && (rest != "" ==> !IsDigit(rest[0]))
    requires sign == ds == "" && rest != "" ==> !IsSpace(rest[0]) && rest[0] != '+' && rest[0] != '-'
    ensures Numeral(pad + (sign + (ds + rest))) == if sign == "-" then 0 - Value(ds) else Value(ds)
  {
    var t := sign + (ds + rest);
    TrimLeftPadding(pad, t);
    assert TrimLeft(t) == t;
    DigitsOf(ds, rest);
    if sign == "" { assert t == ds + rest; } else { assert t[1..] == ds + rest; }
  }

  /** Within the range of `int`, `atoi` reads the number as it is. */
  lemma AtoiInRange(s: string)
    requires -0x8000_0000 <= Numeral(s) < 0x8000_0000
    ensures Atoi(s) == Numeral(s)
  {
    hide Numeral;
  }

  /** Decimal notation is read as its number, with its sign. */
  lemma AtoiOfSigned(pad: string, n: nat)
    requires AllSpace(pad) && n <= 0x8000_0000
    ensures Atoi(pad + ("-" + Decimal(n))) == 0 - n
    ensures n < 0x8000_0000 ==> Atoi(pad + ("+" + Decimal(n))) == n
  {
    hide Numeral, Value, Atoi, Decimal;
    var ds := Decimal(n);
    assert ds + "" == ds;
    NumeralMeaning(pad, "-", ds, "");
    NumeralMeaning(pad, "+", ds, "");
    DigitsOfDecimal(n);
    DigitsAreValue(ds);
    AtoiInRange(pad + ("-" + ds));
    if n < 0x8000_0000 { AtoiInRange(pad + ("+" + ds)); }
  }

  // ---------- addresses ----------

  /** Four numbers joined by dots. */
  function Quad(a: nat, b: nat, c: nat, d: nat): string {
    Decimal(a) + ("." + (Decimal(b) + ("." + (Decimal(c) + ("." + Decimal(d))))))
  }

  ghost predicate DottedQuad(s: string) {
    exists a: nat, b: nat, c: nat, d: nat :: a <= 255 && b <= 255 && c <= 255 && d <= 255 && s == Quad(a, b, c, d)
  }

  lemma {:induction false} OctetRead(n: nat, rest: string, octets: nat)
    requires n <= 255 && octets < 4
    ensures DottedFrom(Decimal(n) + rest, octets, false, 0) == DottedFrom(rest, octets + 1, true, n)
  {
    var c := ('0' as int + n % 10) as char;
    if n < 10 {
      assert Decimal(n) == [c] && ([c] + rest)[1..] == rest;
    } else {
      OctetRead(n / 10, [c] + rest, octets);
      assert Decimal(n) + rest == Decimal(n / 10) + ([c] + rest) && ([c] + rest)[1..] == rest;
    }
  }

  lemma DotRead(rest: string, octets: nat, value: nat)
    ensures DottedFrom("." + rest, octets, true, value) == (octets < 4 && DottedFrom(rest, octets, false, 0))
  {
    assert ("." + rest)[1..] == rest;
  }

  lemma QuadIsAddress(a: nat, b: nat, c: nat, d: nat)
    requires a <= 255 && b <= 255 && c <= 255 && d <= 255
    ensures IsAddress(Quad(a, b, c, d))
  {
    hide Decimal;
    OctetRead(a, "." + (Decimal(b) + ("." + (Decimal(c) + ("." + Decimal(d))))), 0);
    DotRead(Decimal(b) + ("." + (Decimal(c) + ("." + Decimal(d)))), 1, a);
    OctetRead(b, "." + (Decimal(c) + ("." + Decimal(d))), 1);
    DotRead(Decimal(c) + ("." + Decimal(d)), 2, b);
    OctetRead(c, "." + Decimal(d), 2);
    DotRead(Decimal(d), 3, c);
    assert Decimal(d) + "" == Decimal(d);
    OctetRead(d, "", 3);
  }

  lemma DecimalMore(n: nat, c: char)
    requires n > 0 && IsDigit(c)
    ensures Decimal(10 * n + DigitValue(c)) == Decimal(n) + [c]
  {
  }

  /** The digits that follow complete the octet. */
  lemma {:induction false} OctetEnds(s: string, octets: nat, value: nat) returns (n: nat, rest: string)
    requires DottedFrom(s, octets, true, value) && value <= 255
    ensures n <= 255 && Decimal(value) + s == Decimal(n) + rest && |rest| <= |s|
    ensures DottedFrom(rest, octets, true, n) && (rest == "" || rest[0] == '.')
  {
    if s != "" && IsDigit(s[0]) {
      DecimalMore(value, s[0]);
      n, rest := OctetEnds(s[1..], octets, 10 * value + DigitValue(s[0]));
      assert Decimal(value) + s == Decimal(value) + [s[0]] + s[1..];
    } else {
      n, rest := value, s;
    }
  }

  /** One octet and what follows it. */
  lemma OneOctet(s: string, octets: nat) returns (n: nat, rest: string)
    requires DottedFrom(s, octets, false, 0) && octets < 4
    ensures n <= 255 && s == Decimal(n) + rest && if octets == 3 then rest == "" else rest != "" && rest[0] == '.'
    ensures octets < 3 ==> DottedFrom(rest[1..], octets + 1, false, 0)
  {
    var value := DigitValue(s[0]);
    assert Decimal(value) == [s[0]];
    n, rest := OctetEnds(s[1..], octets + 1, value);
    assert s == [s[0]] + s[1..];
  }

  /** An octet, a dot and the rest. */
  lemma OctetAndDot(s: string, octets: nat) returns (n: nat, rest: string)
    requires DottedFrom(s, octets, false, 0) && octets < 3
    ensures n <= 255 && s == Decimal(n) + ("." + rest) && DottedFrom(rest, octets + 1, false, 0)
  {
    var r;
    n, r := OneOctet(s, octets);
    rest := r[1..];
    assert r == "." + rest;
  }

  lemma AddressParts(s: string) returns (a: nat, b: nat, c: nat, d: nat)
    requires IsAddress(s)
    ensures a <= 255 && b <= 255 && c <= 255 && d <= 255 && s == Quad(a, b, c, d)
  {
    var s1, s2, s3, rest;
    hide Decimal, DottedFrom;
    a, s1 := OctetAndDot(s, 0);
    b, s2 := OctetAndDot(s1, 1);
    c, s3 := OctetAndDot(s2, 2);
    d, rest := OneOctet(s3, 3);
    assert s3 == Decimal(d);
  }

  /** An address is four numbers up to 255, in decimal without leading zeros, joined by dots. */
  lemma AddressMeaning(s: string)
    ensures IsAddress(s) <==> DottedQuad(s)
  {
    hide IsAddress;
    if IsAddress(s) {
      var a, b, c, d := AddressParts(s);
    } else if DottedQuad(s) {
      var a: nat, b: nat, c: nat, d: nat :|
        a <= 255 && b <= 255 && c <= 255 && d <= 255 && s == Quad(a, b, c, d);
      QuadIsAddress(a, b, c, d);
      assert false;
    }
  }
}
