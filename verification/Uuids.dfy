/**
  UUIDs, their text form (section 4 of RFC 9562) and their two orders.

  The service orders a pair of participants by comparing text; the database checks `id_low < id_high` by comparing the
  16 bytes. `OrderAgrees` says the two comparisons never disagree.
 */
module Uuids {
  import opened Wrappers

  type Uuid = bytes: seq<Byte> | |bytes| == 16 witness seq(16, _ => 0)

  const NIL: Uuid := [0, 0, 0, 0, 0, 0, 0, 0, 0, 0, 0, 0, 0, 0, 0, 0]

  function HexDigit(n: int): char
    requires 0 <= n < 16
  {
    if n < 10 then (n + '0' as int) as char else (n - 10 + 'a' as int) as char
  }

  function Hex(b: Byte): string {
    [HexDigit(b / 16), HexDigit(b % 16)]
  }

  function Dash(i: nat): string {
    if i == 4 || i == 6 || i == 8 || i == 10 then "-" else ""
  }

  /** The text of the bytes from `i` on: two hex digits a byte, and a dash before bytes 4, 6, 8 and 10. */
  function TextFrom(u: Uuid, i: nat): string
    requires i <= 16
    decreases 16 - i
  {
    if i == 16 then ""
    else Dash(i) + Hex(u[i]) + TextFrom(u, i + 1)
  }

  function ToString(u: Uuid): string {
    TextFrom(u, 0)
  }

  // ---------------------------------------------------------------------------------------------
  // The text form
  // ---------------------------------------------------------------------------------------------

  /** Where the two digits of a byte begin: after the digits of the bytes before it, and a dash each before bytes 4, 6, 8
      and 10. */
  function Place(i: nat): nat {
    2 * i + (if i >= 4 then 1 else 0) + (if i >= 6 then 1 else 0) + (if i >= 8 then 1 else 0) + (if i >= 10 then 1 else 0)
  }

  /** A lower-case hexadecimal digit. */
  function DigitValue(c: char): Option<nat> {
    if '0' <= c <= '9' then Some(c as nat - '0' as nat)
    else if 'a' <= c <= 'f' then Some(10 + c as nat - 'a' as nat)
    else None
  }

  lemma HexValue(b: Byte)
    ensures DigitValue(Hex(b)[0]) == Some(b / 16) && DigitValue(Hex(b)[1]) == Some(b % 16)
  {
  }

  lemma Places(i: nat)
    requires i < 16
    ensures Place(i + 1) == Place(i) + 2 + |Dash(i + 1)| && Place(0) == 0 && Place(16) == 36 && Dash(16) == ""
  {
  }

  lemma TextStep(u: Uuid, i: nat)
    requires i < 16
    ensures TextFrom(u, i) == Dash(i) + Hex(u[i]) + TextFrom(u, i + 1) && |Hex(u[i])| == 2 && TextFrom(u, 16) == ""
    ensures Dash(i) == "" || Dash(i) == "-"
  {
  }

  lemma {:induction false} TextUpTo(u: Uuid, k: nat) returns (before: string)
    requires k <= 16
    ensures ToString(u) == before + TextFrom(u, k) && |before| == Place(k) - |Dash(k)|
  {
    hide TextFrom, Hex;
    if k == 0 {
      before := "";
    } else {
      var earlier := TextUpTo(u, k - 1);
      TextStep(u, k - 1);
      Places(k - 1);
      before := earlier + Dash(k - 1) + Hex(u[k - 1]);
      assert earlier + (Dash(k - 1) + Hex(u[k - 1]) + TextFrom(u, k)) == before + TextFrom(u, k);
    }
  }

  lemma TextAt(u: Uuid, k: nat)
    requires k < 16
    ensures Place(k) + 2 <= |ToString(u)| && ToString(u)[Place(k)..Place(k) + 2] == Hex(u[k])
    ensures Dash(k) != "" ==> Place(k) > 0 && ToString(u)[Place(k) - 1] == '-'
  {
    hide TextFrom, Hex, Place, Dash, ToString;
    var before := TextUpTo(u, k);
    TextStep(u, k);
    var head, rest := before + Dash(k), TextFrom(u, k + 1);
    assert ToString(u) == head + Hex(u[k]) + rest;
  }

  lemma TextLength(u: Uuid)
    ensures |ToString(u)| == 36
  {
    hide TextFrom;
    var all := TextUpTo(u, 16);
    TextStep(u, 15);
  }

  /** A UUID's text has 36 characters: dashes at 8, 13, 18 and 23, and the sixteen bytes in order as two lower-case
      hexadecimal digits each. */
  lemma TextForm(u: Uuid, k: nat)
    requires k < 16
    ensures var text := ToString(u);
            && |text| == 36 && text[8] == text[13] == text[18] == text[23] == '-'
            && Place(k) + 2 <= 36
            && DigitValue(text[Place(k)]).Some? && DigitValue(text[Place(k) + 1]).Some?
            && DigitValue(text[Place(k)]).value * 16 + DigitValue(text[Place(k) + 1]).value == u[k]
  {
    hide Hex, DigitValue, ToString;
    TextLength(u);
    TextAt(u, k);
    TextAt(u, 4);
    TextAt(u, 6);
    TextAt(u, 8);
    TextAt(u, 10);
    var pair := ToString(u)[Place(k)..Place(k) + 2];
    assert pair == Hex(u[k]) && pair[0] == ToString(u)[Place(k)] && pair[1] == ToString(u)[Place(k) + 1];
    HexValue(u[k]);
  }

  // ---------------------------------------------------------------------------------------------
  // The two orders
  // ---------------------------------------------------------------------------------------------

  /** Go's string order. */
  predicate TextLess(a: string, b: string) {
    b != "" && (a == "" || a[0] < b[0] || (a[0] == b[0] && TextLess(a[1..], b[1..])))
  }

  /** The database's order on the bytes from `i` on. */
  predicate BytesLessFrom(a: Uuid, b: Uuid, i: nat)
    requires i <= 16
    decreases 16 - i
  {
    i < 16 && (a[i] < b[i] || (a[i] == b[i] && BytesLessFrom(a, b, i + 1)))
  }

  predicate BytesLess(a: Uuid, b: Uuid) {
    BytesLessFrom(a, b, 0)
  }

  lemma {:induction false} SharedHead(head: string, a: string, b: string)
    ensures TextLess(head + a, head + b) <==> TextLess(a, b)
  {
    if head == "" {
      assert head + a == a && head + b == b;
    } else {
      SharedHead(head[1..], a, b);
      assert (head + a)[1..] == head[1..] + a && (head + b)[1..] == head[1..] + b;
    }
  }

  /** Two hex digits are ordered like the bytes they stand for, and decide unless the bytes are equal. */
  lemma HexOrder(x: Byte, y: Byte, a: string, b: string)
    ensures TextLess(Hex(x) + a, Hex(y) + b) <==> x < y || (x == y && TextLess(a, b))
  {
  }

  lemma {:induction false} NotLessThanItself(s: string)
    ensures !TextLess(s, s)
  {
    if s != "" {
      NotLessThanItself(s[1..]);
    }
  }

  lemma {:induction false} OrderAgreesFrom(a: Uuid, b: Uuid, i: nat)
    requires i <= 16
    ensures TextLess(TextFrom(a, i), TextFrom(b, i)) <==> BytesLessFrom(a, b, i)
    decreases 16 - i
  {
    hide TextLess, Hex, Dash;
    NotLessThanItself("");
    if i < 16 {
      OrderAgreesFrom(a, b, i + 1);
      var restA, restB := Hex(a[i]) + TextFrom(a, i + 1), Hex(b[i]) + TextFrom(b, i + 1);
      HexOrder(a[i], b[i], TextFrom(a, i + 1), TextFrom(b, i + 1));
      SharedHead(Dash(i), restA, restB);
      assert TextFrom(a, i) == Dash(i) + restA && TextFrom(b, i) == Dash(i) + restB;
    }
  }

  /** The text order of two UUIDs is their byte order. */
  lemma OrderAgrees(a: Uuid, b: Uuid)
    ensures TextLess(ToString(a), ToString(b)) <==> BytesLess(a, b)
  {
    hide TextLess, TextFrom, BytesLessFrom;
    OrderAgreesFrom(a, b, 0);
  }

  lemma {:induction false} BytesTrichotomy(a: Uuid, b: Uuid, i: nat)
    requires i <= 16
    ensures BytesLessFrom(a, b, i) ==> !BytesLessFrom(b, a, i)
    ensures !BytesLessFrom(a, b, i) && !BytesLessFrom(b, a, i) ==> a[i..] == b[i..]
    ensures !BytesLessFrom(a, a, i)
    decreases 16 - i
  {
    if i < 16 {
      BytesTrichotomy(a, b, i + 1);
      assert a[i..] == [a[i]] + a[i + 1..] && b[i..] == [b[i]] + b[i + 1..];
    }
  }

  datatype Pair = Pair(low: Uuid, high: Uuid)

  /** The service's order of two participants: swapped when the first one's text is the greater. */
  function Canonical(id1: Uuid, id2: Uuid): Pair {
    if TextLess(ToString(id2), ToString(id1)) then Pair(id2, id1) else Pair(id1, id2)
  }

  /** The swap makes the database's `id_low < id_high` hold for every two distinct ids, and for no equal ones; the
      argument order does not matter, and the pair remembers nothing but the two ids. */
  lemma CanonicalPair(a: Uuid, b: Uuid)
    ensures Canonical(a, b) == Canonical(b, a)
    ensures BytesLess(Canonical(a, b).low, Canonical(a, b).high) <==> a != b
    ensures {Canonical(a, b).low, Canonical(a, b).high} == {a, b}
  {
    hide TextLess, ToString, BytesLessFrom;
    OrderAgrees(a, b);
    OrderAgrees(b, a);
    BytesTrichotomy(a, b, 0);
    assert a[0..] == a && b[0..] == b;
  }

  lemma CanonicalInjective(a: Uuid, b: Uuid, c: Uuid, d: Uuid)
    ensures Canonical(a, b) == Canonical(c, d) <==> {a, b} == {c, d}
  {
    hide TextLess, ToString, BytesLess, Canonical;
    CanonicalPair(a, b);
    CanonicalPair(b, a);
    CanonicalPair(c, d);
    if {a, b} == {c, d} {
      assert c in {a, b} && d in {a, b} && a in {c, d} && b in {c, d};
    }
  }
}
