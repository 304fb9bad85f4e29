/** Base64 without padding, as in sections 3.2 and 4 of RFC 4648, with the decoder of Go's RawStdEncoding. */
module Base64 {
  import opened Wrappers

  type Bytes = seq<Byte>

  /** The alphabet, by ranges. */
  function Symbol(n: nat): (c: char)
    requires n < 64
    ensures SymbolValue(c) == Some(n)
  {
    if n < 26 then ('A' as int + n) as char
    else if n < 52 then ('a' as int + n - 26) as char
    else if n < 62 then ('0' as int + n - 52) as char
    else if n == 62 then '+' else '/'
  }

  function SymbolValue(c: char): (v: Option<nat>)
    ensures v.Some? ==> v.value < 64
  {
    if 'A' <= c <= 'Z' then Some(c as int - 'A' as int)
    else if 'a' <= c <= 'z' then Some(26 + c as int - 'a' as int)
    else if '0' <= c <= '9' then Some(52 + c as int - '0' as int)
    else if c == '+' then Some(62)
    else if c == '/' then Some(63)
    else None
  }

  predicate InAlphabet(s: string) {
    forall i :: 0 <= i < |s| ==> SymbolValue(s[i]).Some?
  }

  /** Three bytes as four six-bit symbols. */
  function Quantum(b0: Byte, b1: Byte, b2: Byte): (s: string)
    ensures |s| == 4 && InAlphabet(s)
  {
    [Symbol(b0 / 4), Symbol(b0 % 4 * 16 + b1 / 16), Symbol(b1 % 16 * 4 + b2 / 64), Symbol(b2 % 64)]
  }

  /** Three bytes become four symbols; one or two bytes at the end become two or three. */
  function Encode(b: Bytes): (s: string)
    ensures InAlphabet(s)
    ensures |s| == (4 * |b| + 2) / 3
  {
    if b == [] then ""
    else if |b| == 1 then Quantum(b[0], 0, 0)[..2]
    else if |b| == 2 then Quantum(b[0], b[1], 0)[..3]
    else Quantum(b[0], b[1], b[2]) + Encode(b[3..])
  }

  /** Four six-bit values as three bytes. */
  function Packed(v0: nat, v1: nat, v2: nat, v3: nat): (b: Bytes)
    requires v0 < 64 && v1 < 64 && v2 < 64 && v3 < 64
    ensures |b| == 3
  {
    [v0 * 4 + v1 / 16, v1 % 16 * 16 + v2 / 4, v2 % 4 * 64 + v3]
  }

  predicate IsLineBreak(c: char) {
    c == '\r' || c == '\n'
  }

  /** The decoder skips line breaks wherever they are. */
  function WithoutLineBreaks(s: string): (t: string)
    ensures forall i :: 0 <= i < |t| ==> !IsLineBreak(t[i])
  {
    if s == "" then "" else (if IsLineBreak(s[0]) then "" else [s[0]]) + WithoutLineBreaks(s[1..])
  }

  /** Four symbols become three bytes. Two or three symbols at the end become one or two bytes and their spare bits are
      not looked at; a single symbol at the end is an error. */
  function DecodeSymbols(s: string): Option<Bytes>
    requires InAlphabet(s)
  {
    if s == "" then Some([])
    else if |s| == 1 then None
    else
      var v0, v1 := SymbolValue(s[0]).value, SymbolValue(s[1]).value;
      if |s| == 2 then Some(Packed(v0, v1, 0, 0)[..1])
      else
        var v2 := SymbolValue(s[2]).value;
        if |s| == 3 then Some(Packed(v0, v1, v2, 0)[..2])
        else
          match DecodeSymbols(s[4..])
          case None => None
          case Some(rest) => Some(Packed(v0, v1, v2, SymbolValue(s[3]).value) + rest)
  }

  function Decode(s: string): Option<Bytes> {
    var t := WithoutLineBreaks(s);
    if InAlphabet(t) then DecodeSymbols(t) else None
  }

  // ---------------------------------------------------------------------------------------------
  // Round trip
  // ---------------------------------------------------------------------------------------------

  lemma {:induction false} NoLineBreaks(s: string)
    requires forall i :: 0 <= i < |s| ==> !IsLineBreak(s[i])
    ensures WithoutLineBreaks(s) == s
  {
    if s != "" {
      NoLineBreaks(s[1..]);
    }
  }

  lemma SplitByte(high: nat, low: nat)
    ensures low < 4 ==> (high * 4 + low) / 4 == high && (high * 4 + low) % 4 == low
    ensures low < 16 ==> (high * 16 + low) / 16 == high && (high * 16 + low) % 16 == low
    ensures low < 64 ==> (high * 64 + low) / 64 == high && (high * 64 + low) % 64 == low
  {
  }

  lemma PackedQuantum(b0: Byte, b1: Byte, b2: Byte)
    ensures var s := Quantum(b0, b1, b2);
            && Packed(SymbolValue(s[0]).value, SymbolValue(s[1]).value, SymbolValue(s[2]).value,
                      SymbolValue(s[3]).value) == [b0, b1, b2]
            && (b2 == 0 ==> SymbolValue(s[3]).value == 0)
            && (b1 == b2 == 0 ==> SymbolValue(s[2]).value == 0)
  {
    hide SymbolValue;
    SplitByte(b0 % 4, b1 / 16);
    SplitByte(b1 % 16, b2 / 64);
    var v1, v2 := b0 % 4 * 16 + b1 / 16, b1 % 16 * 4 + b2 / 64;
    assert b0 / 4 * 4 + v1 / 16 == b0;
    assert v1 % 16 * 16 + v2 / 4 == b1;
    assert v2 % 4 * 64 + b2 % 64 == b2;
  }

  lemma {:induction false} SymbolsRoundTrip(b: Bytes)
    ensures DecodeSymbols(Encode(b)) == Some(b)
  {
    hide Quantum, Packed, SymbolValue;
    var s := Encode(b);
    if |b| == 1 {
      PackedQuantum(b[0], 0, 0);
      assert b == [b[0], 0, 0][..1];
    } else if |b| == 2 {
      PackedQuantum(b[0], b[1], 0);
      assert b == [b[0], b[1], 0][..2];
    } else if |b| >= 3 {
      PackedQuantum(b[0], b[1], b[2]);
      assert s[4..] == Encode(b[3..]);
      SymbolsRoundTrip(b[3..]);
      assert b == [b[0], b[1], b[2]] + b[3..];
    }
  }

  /** Decoding undoes encoding, for all bytes. */
  lemma RoundTrip(b: Bytes)
    ensures Decode(Encode(b)) == Some(b)
  {
    NoLineBreaks(Encode(b));
    SymbolsRoundTrip(b);
  }

  /** The spare bits of the last symbol are zero. */
  predicate SpareBitsAreZero(s: string)
    requires InAlphabet(s)
  {
    && (|s| % 4 == 2 ==> SymbolValue(s[|s| - 1]).value % 16 == 0)
    && (|s| % 4 == 3 ==> SymbolValue(s[|s| - 1]).value % 4 == 0)
  }

  lemma SymbolOfValue(c: char)
    requires SymbolValue(c).Some?
    ensures Symbol(SymbolValue(c).value) == c
  {
  }

  /** Four values, packed and unpacked; a short group comes back without the spare bits of its last symbol. */
  lemma QuantumPacked(v0: nat, v1: nat, v2: nat, v3: nat)
    requires v0 < 64 && v1 < 64 && v2 < 64 && v3 < 64
    ensures var b := Packed(v0, v1, v2, v3);
            && Quantum(b[0], b[1], b[2]) == [Symbol(v0), Symbol(v1), Symbol(v2), Symbol(v3)]
            && Quantum(b[0], b[1], 0)[..3] == [Symbol(v0), Symbol(v1), Symbol(v2 - v2 % 4)]
            && Quantum(b[0], 0, 0)[..2] == [Symbol(v0), Symbol(v1 - v1 % 16)]
  {
    hide Symbol, SymbolValue;
    SplitByte(v0, v1 / 16);
    SplitByte(v1 % 16, v2 / 4);
    SplitByte(v2 % 4, v3);
    var b := Packed(v0, v1, v2, v3);
    assert b[0] / 4 == v0 && b[0] % 4 == v1 / 16;
    assert b[1] / 16 == v1 % 16 && b[1] % 16 == v2 / 4;
    assert b[2] / 64 == v2 % 4 && b[2] % 64 == v3;
  }

  lemma {:induction false} SymbolsBack(s: string)
    requires InAlphabet(s) && DecodeSymbols(s).Some?
    ensures Encode(DecodeSymbols(s).value) == s <==> SpareBitsAreZero(s)
  {
    hide Symbol, SymbolValue;
    if |s| >= 4 {
      SymbolsBack(s[4..]);
      GroupBack(s);
    } else if s != "" {
      EndBack(s);
    }
  }

  lemma EncodeGroup(group: Bytes, rest: Bytes)
    requires |group| == 3
    ensures Encode(group + rest) == Quantum(group[0], group[1], group[2]) + Encode(rest)
  {
    hide Quantum;
  }

  lemma SpareBitsOfRest(s: string)
    requires |s| >= 4 && InAlphabet(s)
    ensures SpareBitsAreZero(s) <==> SpareBitsAreZero(s[4..])
  {
    hide SymbolValue;
  }

  lemma GroupBack(s: string)
    requires |s| >= 4 && InAlphabet(s) && DecodeSymbols(s).Some?
    ensures DecodeSymbols(s[4..]).Some?
    ensures Encode(DecodeSymbols(s).value) == s <==> Encode(DecodeSymbols(s[4..]).value) == s[4..]
    ensures SpareBitsAreZero(s) <==> SpareBitsAreZero(s[4..])
  {
    hide Symbol, SymbolValue, Quantum, Packed, Encode, SpareBitsAreZero;
    SpareBitsOfRest(s);
    var v0, v1, v2, v3 :=
      SymbolValue(s[0]).value, SymbolValue(s[1]).value, SymbolValue(s[2]).value, SymbolValue(s[3]).value;
    SymbolOfValue(s[0]);
    SymbolOfValue(s[1]);
    SymbolOfValue(s[2]);
    SymbolOfValue(s[3]);
    QuantumPacked(v0, v1, v2, v3);
    var rest := DecodeSymbols(s[4..]).value;
    EncodeGroup(Packed(v0, v1, v2, v3), rest);
    var head, e := [s[0], s[1], s[2], s[3]], Encode(rest);
    assert Encode(DecodeSymbols(s).value) == head + e;
    SameTail(head, e, s);
  }

  lemma SameTail(head: string, e: string, s: string)
    requires |head| == 4 <= |s| && head == s[..4]
    ensures head + e == s <==> e == s[4..]
  {
  }

  lemma EncodedPair(v0: nat, v1: nat)
    requires v0 < 64 && v1 < 64
    ensures Encode(Packed(v0, v1, 0, 0)[..1]) == [Symbol(v0), Symbol(v1 - v1 % 16)]
  {
    QuantumPacked(v0, v1, 0, 0);
    hide Symbol, Quantum, Packed;
  }

  lemma EncodedTriple(v0: nat, v1: nat, v2: nat)
    requires v0 < 64 && v1 < 64 && v2 < 64
    ensures Encode(Packed(v0, v1, v2, 0)[..2]) == [Symbol(v0), Symbol(v1), Symbol(v2 - v2 % 4)]
  {
    QuantumPacked(v0, v1, v2, 0);
    hide Symbol, Quantum, Packed;
  }

  lemma DecodedEnd(s: string)
    requires 2 <= |s| <= 3 && InAlphabet(s)
    ensures var v0, v1 := SymbolValue(s[0]).value, SymbolValue(s[1]).value;
            DecodeSymbols(s) == Some(if |s| == 2 then Packed(v0, v1, 0, 0)[..1]
                                     else Packed(v0, v1, SymbolValue(s[2]).value, 0)[..2])
  {
    hide SymbolValue, Packed;
  }

  lemma EndBack(s: string)
    requires 2 <= |s| <= 3 && InAlphabet(s) && DecodeSymbols(s).Some?
    ensures Encode(DecodeSymbols(s).value) == s <==> SpareBitsAreZero(s)
  {
    hide Symbol, SymbolValue, Packed, Encode, DecodeSymbols;
    DecodedEnd(s);
    var v0, v1 := SymbolValue(s[0]).value, SymbolValue(s[1]).value;
    var e := Encode(DecodeSymbols(s).value);
    SymbolOfValue(s[0]);
    SymbolOfValue(s[1]);
    if |s| == 2 {
      EncodedPair(v0, v1);
      SameSymbol(v1, v1 - v1 % 16);
      assert e[0] == s[0] && (e[1] == s[1] <==> v1 % 16 == 0);
    } else {
      var v2 := SymbolValue(s[2]).value;
      SymbolOfValue(s[2]);
      EncodedTriple(v0, v1, v2);
      SameSymbol(v2, v2 - v2 % 4);
      assert e[0] == s[0] && e[1] == s[1] && (e[2] == s[2] <==> v2 % 4 == 0);
    }
  }

  lemma SameSymbol(m: nat, n: nat)
    requires m < 64 && n < 64
    ensures Symbol(m) == Symbol(n) <==> m == n
  {
    hide SymbolValue;
  }

  /** Symbols only, and the spare bits are zero: the form in which bytes are encoded. */
  predicate Plain(s: string) {
    InAlphabet(s) && SpareBitsAreZero(s)
  }

  /** Encoding undoes decoding exactly for the plain texts; every other accepted text is a second spelling of the same
      bytes. */
  lemma CanonicalTexts(s: string)
    requires Decode(s).Some?
    ensures Encode(Decode(s).value) == s <==> Plain(s)
  {
    var t := WithoutLineBreaks(s);
    SymbolsBack(t);
    if InAlphabet(s) {
      NoLineBreaks(s);
    }
  }

  // ---------------------------------------------------------------------------------------------
  // The alphabet and the bits
  // ---------------------------------------------------------------------------------------------

  // Table 1 of RFC 4648.
  const UPPER: string := "ABCDEFGHIJKLMNOPQRSTUVWXYZ"
  const LOWER: string := "abcdefghijklmnopqrstuvwxyz"
  const DIGITS: string := "0123456789+/"

  lemma UpperSymbols(n: nat)
    requires n < 26
    ensures |UPPER| == 26 && UPPER[n] as int == 'A' as int + n
  {
  }

  lemma LowerSymbols(n: nat)
    requires n < 26
    ensures |LOWER| == 26 && LOWER[n] as int == 'a' as int + n
  {
  }

  /** The symbols are those of the table, in its order. */
  lemma SymbolsAreTheTable(n: nat)
    requires n < 64
    ensures |UPPER + LOWER + DIGITS| == 64 && (UPPER + LOWER + DIGITS)[n] == Symbol(n)
  {
    var m := if n < 26 then n else if n < 52 then n - 26 else 0;
    UpperSymbols(m);
    LowerSymbols(m);
    hide UPPER, LOWER;
    assert |DIGITS| == 12;
    assert n < 26 ==> Symbol(n) == UPPER[n];
    assert 26 <= n < 52 ==> Symbol(n) == LOWER[n - 26];
    assert 52 <= n ==> Symbol(n) == DIGITS[n - 52];
  }

  /** The number that digits stand for in a base. */
  function Number(digits: seq<nat>, base: nat): nat {
    if digits == [] then 0 else Number(digits[..|digits| - 1], base) * base + digits[|digits| - 1]
  }

  function Values(s: string): seq<nat>
    requires InAlphabet(s)
  {
    seq(|s|, i requires 0 <= i < |s| => SymbolValue(s[i]).value)
  }

  lemma NumberOfThree(a: nat, b: nat, c: nat, base: nat)
    ensures Number([a, b, c], base) == (a * base + b) * base + c
  {
    assert [a, b, c][..2] == [a, b] && [a, b][..1] == [a] && [a][..0] == [];
    assert Number([a], base) == a && Number([a, b], base) == a * base + b;
  }

  lemma NumberOfFour(a: nat, b: nat, c: nat, d: nat, base: nat)
    ensures Number([a, b, c, d], base) == ((a * base + b) * base + c) * base + d
  {
    NumberOfThree(a, b, c, base);
    assert [a, b, c, d][..3] == [a, b, c];
  }

  lemma QuantumIsNumber(b0: Byte, b1: Byte, b2: Byte)
    ensures Number(Values(Quantum(b0, b1, b2)), 64) == Number([b0 as nat, b1 as nat, b2 as nat], 256)
  {
    hide Number, Symbol, SymbolValue;
    var v0, v1, v2, v3 := b0 as nat / 4, b0 as nat % 4 * 16 + b1 as nat / 16, b1 as nat % 16 * 4 + b2 as nat / 64,
                          b2 as nat % 64;
    assert Values(Quantum(b0, b1, b2)) == [v0, v1, v2, v3];
    NumberOfFour(v0, v1, v2, v3, 64);
    NumberOfThree(b0, b1, b2, 256);
  }

  /** The text of at least three bytes begins with four symbols for the first three of them: read in base 64, they are the
      number that the bytes are in base 256. */
  lemma EncodesInThrees(b: Bytes)
    requires |b| >= 3
    ensures Encode(b)[4..] == Encode(b[3..])
    ensures InAlphabet(Encode(b)[..4])
            && Number(Values(Encode(b)[..4]), 64) == Number([b[0] as nat, b[1] as nat, b[2] as nat], 256)
  {
    QuantumIsNumber(b[0], b[1], b[2]);
    hide Quantum, Values, Number;
    assert Encode(b)[..4] == Quantum(b[0], b[1], b[2]);
  }

  /** One or two bytes at the end are filled up with zeros, and as many symbols as bytes are missing are left out. */
  lemma EncodesTheEnd(b0: Byte, b1: Byte)
    ensures Encode([b0]) == Encode([b0, 0, 0])[..2] && Encode([b0, b1]) == Encode([b0, b1, 0])[..3]
  {
    assert [b0, 0, 0][3..] == [] && [b0, b1, 0][3..] == [];
  }

  lemma {:induction false} SymbolsDecodeIff(s: string)
    requires InAlphabet(s)
    ensures DecodeSymbols(s).Some? <==> |s| % 4 != 1
  {
    if |s| >= 4 {
      SymbolsDecodeIff(s[4..]);
    }
  }

  /** The decoder accepts exactly the texts that, but for line breaks, have symbols only, and not one too many. */
  lemma DecodesIff(s: string)
    ensures Decode(s).Some? <==> InAlphabet(WithoutLineBreaks(s)) && |WithoutLineBreaks(s)| % 4 != 1
  {
    hide InAlphabet;
    if InAlphabet(WithoutLineBreaks(s)) {
      SymbolsDecodeIff(WithoutLineBreaks(s));
    }
  }
}
