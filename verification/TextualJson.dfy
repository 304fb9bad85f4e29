/**
  That objects of text can be written and read back.

  `Requests` asks this of the library. Here is a way of writing them in which no text is the beginning of another, so
  there are libraries that do it, and the theorems are about something.
 */
module TextualJson {
  import opened Wrappers
  import opened Envelopes
  import opened Adapters
  import opened Requests

  /** Every character is announced, and the end is marked. */
  function Quoted(s: string): string {
    if s == "" then "." else "+" + [s[0]] + Quoted(s[1..])
  }

  ghost function Written(v: Value): (s: string)
    requires Textual(v)
    ensures s != ""
    decreases v, 1, 0
  {
    match v
    case Str(s) => "s" + Quoted(s)
    case List(items) => "l" + WrittenItems(v, 0)
    case Object(fields) => "o" + WrittenFields(v, fields)
  }

  ghost function WrittenItems(list: Value, i: nat): string
    requires list.List? && Textual(list) && i <= |list.items|
    decreases list, 0, |list.items| - i
  {
    if i == |list.items| then "." else "+" + Written(list.items[i]) + WrittenItems(list, i + 1)
  }

  ghost predicate Among(fields: Fields, whole: Value) {
    whole.Object? && Textual(whole)
    && forall k :: k in fields ==> k in whole.fields && fields[k] == whole.fields[k]
  }

  ghost function WrittenFields(whole: Value, fields: Fields): string
    requires Among(fields, whole)
    decreases whole, 0, |fields|
  {
    if fields == map[] then "."
    else
      var k :| k in fields;
      "+" + Quoted(k) + Written(fields[k]) + WrittenFields(whole, fields - {k})
  }

  lemma {:induction false} QuotedIsUnique(s: string, t: string, a: string, b: string)
    requires Quoted(s) + a == Quoted(t) + b
    ensures s == t && a == b
  {
    var x, y := Quoted(s) + a, Quoted(t) + b;
    assert x[0] == Quoted(s)[0] && y[0] == Quoted(t)[0];
    if s != "" {
      assert x[1] == s[0] && y[1] == t[0];
      assert x[2..] == Quoted(s[1..]) + a && y[2..] == Quoted(t[1..]) + b;
      QuotedIsUnique(s[1..], t[1..], a, b);
      assert s == [s[0]] + s[1..] && t == [t[0]] + t[1..];
    } else {
      assert x[1..] == a && y[1..] == b;
    }
  }

  lemma {:induction false} WrittenIsUnique(v: Value, w: Value, a: string, b: string)
    requires Textual(v) && Textual(w) && Written(v) + a == Written(w) + b
    ensures v == w && a == b
    decreases v, 1, 0
  {
    var x, y := Written(v) + a, Written(w) + b;
    assert x[0] == Written(v)[0] && y[0] == Written(w)[0];
    assert x[1..] == Written(v)[1..] + a && y[1..] == Written(w)[1..] + b;
    match v
    case Str(s) => QuotedIsUnique(s, w.s, a, b);
    case List(items) =>
      ItemsAreUnique(v, w, 0, a, b);
      assert v.items == v.items[0..] && w.items == w.items[0..];
    case Object(fields) => FieldsAreUnique(v, w, fields, w.fields, a, b);
  }

  lemma {:induction false} ItemsAreUnique(v: Value, w: Value, i: nat, a: string, b: string)
    requires v.List? && w.List? && Textual(v) && Textual(w) && i <= |v.items| && i <= |w.items|
    requires WrittenItems(v, i) + a == WrittenItems(w, i) + b
    ensures v.items[i..] == w.items[i..] && a == b
    decreases v, 0, |v.items| - i
  {
    var x, y := WrittenItems(v, i) + a, WrittenItems(w, i) + b;
    assert x[0] == WrittenItems(v, i)[0] && y[0] == WrittenItems(w, i)[0];
    if i < |v.items| {
      var restV, restW := WrittenItems(v, i + 1) + a, WrittenItems(w, i + 1) + b;
      assert x[1..] == Written(v.items[i]) + restV && y[1..] == Written(w.items[i]) + restW;
      WrittenIsUnique(v.items[i], w.items[i], restV, restW);
      ItemsAreUnique(v, w, i + 1, a, b);
      assert v.items[i..] == [v.items[i]] + v.items[i + 1..] && w.items[i..] == [w.items[i]] + w.items[i + 1..];
    } else {
      assert x[1..] == a && y[1..] == b;
    }
  }

  /** The field that is written first. */
  lemma FirstField(whole: Value, fields: Fields) returns (k: string)
    requires Among(fields, whole) && fields != map[]
    ensures k in fields && Among(fields - {k}, whole) && |fields - {k}| < |fields|
    ensures WrittenFields(whole, fields)
         == "+" + Quoted(k) + Written(fields[k]) + WrittenFields(whole, fields - {k})
  {
    k :| k in fields && WrittenFields(whole, fields)
                        == "+" + Quoted(k) + Written(fields[k]) + WrittenFields(whole, fields - {k});
    assert fields.Keys - {k} == (fields - {k}).Keys && k in fields.Keys;
    assert |fields.Keys - {k}| < |fields.Keys|;
  }

  lemma NoFields(whole: Value, fields: Fields)
    requires Among(fields, whole)
    ensures fields == map[] <==> WrittenFields(whole, fields)[..1] == "."
  {
    if fields != map[] {
      var k := FirstField(whole, fields);
      assert WrittenFields(whole, fields)[0] == '+';
    }
  }

  lemma SameHead(x: string, y: string, a: string, b: string)
    requires x != "" && y != "" && x + a == y + b
    ensures x[..1] == y[..1] && x[1..] + a == y[1..] + b
  {
    assert (x + a)[0] == x[0] && (y + b)[0] == y[0];
    assert (x + a)[1..] == x[1..] + a && (y + b)[1..] == y[1..] + b;
  }

  lemma {:induction false} FieldsAreUnique(v: Value, w: Value, f: Fields, g: Fields, a: string, b: string)
    requires Among(f, v) && Among(g, w) && WrittenFields(v, f) + a == WrittenFields(w, g) + b
    ensures f == g && a == b
    decreases v, 0, |f|
  {
    hide WrittenFields, Written, Quoted, Among, Textual;
    WrittenIsSomething(v, f);
    WrittenIsSomething(w, g);
    SameHead(WrittenFields(v, f), WrittenFields(w, g), a, b);
    NoFields(v, f);
    NoFields(w, g);
    if f != map[] {
      var k := FirstField(v, f);
      var l := FirstField(w, g);
      ValuesAreTextual(v, f, k);
      ValuesAreTextual(w, g, l);
      var restV, restW := WrittenFields(v, f - {k}) + a, WrittenFields(w, g - {l}) + b;
      Regroup(Quoted(k), Written(f[k]), WrittenFields(v, f - {k}), a);
      Regroup(Quoted(l), Written(g[l]), WrittenFields(w, g - {l}), b);
      QuotedIsUnique(k, l, Written(f[k]) + restV, Written(g[l]) + restW);
      WrittenIsUnique(f[k], g[l], restV, restW);
      FieldsAreUnique(v, w, f - {k}, g - {k}, a, b);
      assert f == (f - {k})[k := f[k]] && g == (g - {k})[k := g[k]];
    } else {
      NothingIsADot(v);
      NothingIsADot(w);
      assert "."[1..] + a == a && "."[1..] + b == b;
    }
  }

  lemma WrittenIsSomething(whole: Value, fields: Fields)
    requires Among(fields, whole)
    ensures WrittenFields(whole, fields) != ""
  {
  }

  lemma NothingIsADot(whole: Value)
    requires Among(map[], whole)
    ensures WrittenFields(whole, map[]) == "."
  {
  }

  lemma ValuesAreTextual(whole: Value, fields: Fields, k: string)
    requires Among(fields, whole) && k in fields
    ensures Textual(fields[k])
    ensures whole.Object? && k in whole.fields && fields[k] == whole.fields[k]
  {
  }

  lemma Regroup(q: string, v: string, rest: string, a: string)
    ensures ("+" + q + v + rest)[1..] + a == q + (v + (rest + a))
  {
    assert ("+" + q + v + rest)[1..] == q + v + rest;
  }

  ghost function ReadBack(s: string): Option<Fields> {
    if fields :| TextualFields(fields) && Written(Object(fields)) == s then Some(fields) else None
  }

  /** There is a library that reads back what it writes of text. */
  lemma SomeLibraryReadsBack() returns (lib: Library)
    ensures JsonIsReadBack(lib)
  {
    lib := Library(
      v => "", x => "", s => s,
      fields => if TextualFields(fields) then Written(Object(fields)) else "",
      s => ReadBack(s));
    forall fields: Fields | TextualFields(fields)
      ensures lib.marshal(fields) != "" && lib.parse(lib.marshal(fields)) == Some(fields)
    {
      var text := Written(Object(fields));
      var read := ReadBack(text).value;
      WrittenIsUnique(Object(read), Object(fields), "", "");
    }
  }
}
