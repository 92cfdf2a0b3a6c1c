/** Canonical text of JSON values: objects with their keys sorted, at any depth. */
module CanonicalJson {
  import opened Options
  import opened JsText
  import opened JsonString

  predicate NumberChar(u: CodeUnit) { 48 <= u <= 57 || u in {43, 45, 46, 101} }

  /** The text JavaScript prints for a finite number: it starts with a digit or a minus. */
  predicate IsNumberText(t: Text) {
    t != [] && (48 <= t[0] <= 57 || t[0] == 45) && forall i :: 0 <= i < |t| ==> NumberChar(t[i])
  }

  type NumberText = t: Text | IsNumberText(t) witness [48]

  /** A JavaScript value; objects list their entries in insertion order. `Undefined`
      stands for every value JSON has no text for. */
  datatype Value = Null | Bool(flag: bool) | Num(number: NumberText) | NotFinite | Str(text: Text)
    | Arr(items: seq<Value>) | Obj(entries: seq<Entry>) | Undefined
  datatype Entry = Entry(key: Text, value: Value)

  function Keys(entries: seq<Entry>): seq<Text> {
    seq(|entries|, i requires 0 <= i < |entries| => entries[i].key)
  }

  predicate DistinctKeys(entries: seq<Entry>) {
    forall i, j :: 0 <= i < j < |entries| ==> entries[i].key != entries[j].key
  }

  /** Objects have one value per key. */
  predicate WellFormed(v: Value) {
    match v
    case Arr(items) => forall i :: 0 <= i < |items| ==> WellFormed(items[i])
    case Obj(entries) => DistinctKeys(entries) && forall i :: 0 <= i < |entries| ==> WellFormed(entries[i].value)
    case _ => true
  }

  /** No part of the value is beyond JSON. */
  predicate Printable(v: Value) {
    match v
    case Undefined => false
    case Arr(items) => forall i :: 0 <= i < |items| ==> Printable(items[i])
    case Obj(entries) => forall i :: 0 <= i < |entries| ==> Printable(entries[i].value)
    case _ => true
  }

  /** The value of a key. */
  function Lookup(entries: seq<Entry>, key: Text): (v: Value)
    requires key in Keys(entries)
    ensures exists i :: 0 <= i < |entries| && entries[i] == Entry(key, v)
  {
    if entries[0].key == key then entries[0].value
    else
      assert key in Keys(entries[1..]) by {
        var i :| 0 <= i < |entries| && entries[i].key == key;
        assert Keys(entries[1..])[i - 1] == key;
      }
      var v := Lookup(entries[1..], key);
      assert exists i :: 0 <= i < |entries| && entries[i] == Entry(key, v) by {
        var i :| 0 <= i < |entries[1..]| && entries[1..][i] == Entry(key, v);
        assert entries[i + 1] == Entry(key, v);
      }
      v
  }

  lemma SortedKeys(entries: seq<Entry>)
    ensures forall k :: k in Sort(Keys(entries)) <==> k in Keys(entries)
    ensures |Sort(Keys(entries))| == |entries|
  {
    SortIsSortedPermutation(Keys(entries));
    forall k ensures k in Sort(Keys(entries)) <==> k in Keys(entries) {
      assert k in Sort(Keys(entries)) <==> k in multiset(Sort(Keys(entries)));
    }
    assert |multiset(Sort(Keys(entries)))| == |multiset(Keys(entries))|;
  }

  /** Entries in key order: `Object.keys(record).sort()` and then `record[key]`. */
  function InKeyOrder(entries: seq<Entry>): (sorted: seq<Entry>)
    ensures |sorted| == |entries|
    ensures forall i :: 0 <= i < |sorted| ==> sorted[i] in entries
    ensures Keys(sorted) == Sort(Keys(entries))
  {
    SortedKeys(entries);
    var keys := Sort(Keys(entries));
    assert forall i :: 0 <= i < |keys| ==> keys[i] in Keys(entries);
    seq(|keys|, i requires 0 <= i < |keys| => Entry(keys[i], Lookup(entries, keys[i])))
  }

  const COMMA: CodeUnit := 44
  const COLON: CodeUnit := 58

  function Join(texts: seq<Text>): Text {
    if texts == [] then [] else if |texts| == 1 then texts[0] else texts[0] + [COMMA] + Join(texts[1..])
  }

  /** The text of a printable value. */
  function Encode(v: Value): Text
    requires Printable(v)
    decreases v
  {
    match v
    case Null | NotFinite => [110, 117, 108, 108]
    case Bool(flag) => if flag then [116, 114, 117, 101] else [102, 97, 108, 115, 101]
    case Num(number) => number
    case Str(text) => Quote(text)
    case Arr(items) => [91] + Join(EncodeItems(v, items)) + [93]
    case Obj(entries) =>
      var sorted := InKeyOrder(entries);
      assert forall i :: 0 <= i < |sorted| ==> Printable(sorted[i].value) && sorted[i].value < v by {
        forall i | 0 <= i < |sorted| ensures Printable(sorted[i].value) && sorted[i].value < v {
          assert sorted[i] in entries;
          var k :| 0 <= k < |entries| && entries[k] == sorted[i];
        }
      }
      [123] + Join(EncodeMembers(v, sorted)) + [125]
  }

  function EncodeItems(context: Value, items: seq<Value>): (texts: seq<Text>)
    requires forall i :: 0 <= i < |items| ==> Printable(items[i]) && items[i] < context
    ensures |texts| == |items| && forall i :: 0 <= i < |items| ==> texts[i] == Encode(items[i])
    decreases context, |items|
  {
    if items == [] then [] else [Encode(items[0])] + EncodeItems(context, items[1..])
  }

  function EncodeMembers(context: Value, entries: seq<Entry>): (texts: seq<Text>)
    requires forall i :: 0 <= i < |entries| ==> Printable(entries[i].value) && entries[i].value < context
    ensures |texts| == |entries| && forall i :: 0 <= i < |entries| ==>
      texts[i] == Quote(entries[i].key) + [COLON] + Encode(entries[i].value)
    decreases context, |entries|
  {
    if entries == [] then []
    else [Quote(entries[0].key) + [COLON] + Encode(entries[0].value)] + EncodeMembers(context, entries[1..])
  }

  /** The canonical text; none where the original throws. */
  function Canonical(v: Value): Option<Text> {
    if Printable(v) then Some(Encode(v)) else None
  }

  // ---------- equality up to key order ----------

  /** Equal values, the order of object keys aside; not-a-number and infinities print as null. */
  ghost predicate Same(a: Value, b: Value)
    decreases a
  {
    match a
    case Null | NotFinite => b.Null? || b.NotFinite?
    case Bool(_) | Num(_) | Str(_) | Undefined => a == b
    case Arr(items) => b.Arr? && |b.items| == |items| && forall i :: 0 <= i < |items| ==> Same(items[i], b.items[i])
    case Obj(entries) =>
      b.Obj? && |b.entries| == |entries|
      && forall i :: 0 <= i < |entries| ==>
        entries[i].key in Keys(b.entries) && Same(entries[i].value, Lookup(b.entries, entries[i].key))
  }

  lemma DistinctLookup(entries: seq<Entry>, i: nat)
    requires DistinctKeys(entries) && i < |entries|
    ensures entries[i].key in Keys(entries) && Lookup(entries, entries[i].key) == entries[i].value
  {
    assert Keys(entries)[i] == entries[i].key;
    var v := Lookup(entries, entries[i].key);
    var k :| 0 <= k < |entries| && entries[k] == Entry(entries[i].key, v);
  }

  lemma {:induction false} DistinctItems(a: seq<Text>)
    requires forall i, j :: 0 <= i < j < |a| ==> a[i] != a[j]
    ensures forall k :: multiset(a)[k] == if k in a then 1 else 0
  {
    if a != [] {
      DistinctItems(a[1..]);
      TailItems(a);
      assert a[0] !in a[1..];
      forall k ensures multiset(a)[k] == if k in a then 1 else 0 {
        assert k in a <==> k == a[0] || k in a[1..];
        assert a == [a[0]] + a[1..];
      }
    }
  }

  /** As many keys, all of them shared: the same keys. */
  lemma SharedKeys(a: seq<Entry>, b: seq<Entry>)
    requires DistinctKeys(a) && DistinctKeys(b) && |a| == |b|
    requires forall i :: 0 <= i < |a| ==> a[i].key in Keys(b)
    ensures multiset(Keys(a)) == multiset(Keys(b))
  {
    DistinctItems(Keys(a));
    DistinctItems(Keys(b));
    assert multiset(Keys(a)) <= multiset(Keys(b)) by {
      forall k | k in multiset(Keys(a)) ensures multiset(Keys(a))[k] <= multiset(Keys(b))[k] {
        var i :| 0 <= i < |Keys(a)| && Keys(a)[i] == k;
      }
    }
    SubmultisetOfSameSize(multiset(Keys(a)), multiset(Keys(b)));
  }

  lemma SubmultisetOfSameSize(a: multiset<Text>, b: multiset<Text>)
    requires a <= b && |a| == |b|
    ensures a == b
  {
    assert b == a + (b - a);
    assert |b - a| == 0;
  }

  /** A value in key order is the value its key had. */
  lemma KeyOrderLooksUp(entries: seq<Entry>, i: nat)
    requires i < |entries|
    ensures InKeyOrder(entries)[i].key in Keys(entries)
    ensures InKeyOrder(entries)[i].value == Lookup(entries, InKeyOrder(entries)[i].key)
  {
    SortedKeys(entries);
    assert Sort(Keys(entries))[i] in Sort(Keys(entries));
  }

  lemma InOrderIsListed(entries: seq<Entry>, i: nat) returns (k: nat)
    requires i < |entries|
    ensures k < |entries| && entries[k] == InKeyOrder(entries)[i]
  {
    assert InKeyOrder(entries)[i] in entries;
    k :| 0 <= k < |entries| && entries[k] == InKeyOrder(entries)[i];
  }

  /** Sorted by key, same objects list the same keys with same values. */
  lemma SameInOrder(a: seq<Entry>, b: seq<Entry>)
    requires DistinctKeys(a) && DistinctKeys(b) && Same(Obj(a), Obj(b))
    ensures |InKeyOrder(a)| == |InKeyOrder(b)|
    ensures forall i :: 0 <= i < |a| ==>
      InKeyOrder(a)[i].key == InKeyOrder(b)[i].key && Same(InKeyOrder(a)[i].value, InKeyOrder(b)[i].value)
  {
    SharedKeys(a, b);
    SortEqualIffSameItems(Keys(a), Keys(b));
    forall i | 0 <= i < |a|
      ensures InKeyOrder(a)[i].key == InKeyOrder(b)[i].key && Same(InKeyOrder(a)[i].value, InKeyOrder(b)[i].value)
    {
      assert InKeyOrder(a)[i].key == Keys(InKeyOrder(a))[i] == Keys(InKeyOrder(b))[i] == InKeyOrder(b)[i].key;
      KeyOrderLooksUp(b, i);
      var k := InOrderIsListed(a, i);
    }
  }

  /** And the other way round. */
  lemma InOrderSame(a: seq<Entry>, b: seq<Entry>)
    requires DistinctKeys(a) && DistinctKeys(b) && |a| == |b|
    requires forall i :: 0 <= i < |a| ==>
      InKeyOrder(a)[i].key == InKeyOrder(b)[i].key && Same(InKeyOrder(a)[i].value, InKeyOrder(b)[i].value)
    ensures Same(Obj(a), Obj(b))
  {
    forall n | 0 <= n < |a| ensures a[n].key in Keys(b) && Same(a[n].value, Lookup(b, a[n].key)) {
      SortedKeys(a);
      DistinctLookup(a, n);
      assert a[n].key in Sort(Keys(a));
      var i :| 0 <= i < |Sort(Keys(a))| && Sort(Keys(a))[i] == a[n].key;
      assert Keys(InKeyOrder(a))[i] == a[n].key;
      KeyOrderLooksUp(a, i);
      KeyOrderLooksUp(b, i);
    }
  }

  lemma EntryParts(entries: seq<Entry>, i: nat)
    requires i < |entries| && WellFormed(Obj(entries)) && Printable(Obj(entries))
    ensures WellFormed(InKeyOrder(entries)[i].value) && Printable(InKeyOrder(entries)[i].value)
      && InKeyOrder(entries)[i].value < Obj(entries)
  {
    var k := InOrderIsListed(entries, i);
    assert WellFormed(entries[k].value) && Printable(entries[k].value);
  }

  /** Same values have the same text. */
  lemma {:induction false} SameText(a: Value, b: Value)
    requires WellFormed(a) && WellFormed(b) && Printable(a) && Printable(b) && Same(a, b)
    ensures Encode(a) == Encode(b)
    decreases a
  {
    if a.Arr? {
      var x, y := EncodeItems(a, a.items), EncodeItems(b, b.items);
      forall i | 0 <= i < |a.items| ensures x[i] == y[i] { SameText(a.items[i], b.items[i]); }
      assert x == y;
    } else if a.Obj? {
      SameInOrder(a.entries, b.entries);
      forall i | 0 <= i < |a.entries|
        ensures Printable(InKeyOrder(a.entries)[i].value)
          && InKeyOrder(a.entries)[i].value < a { EntryParts(a.entries, i); }
      forall i | 0 <= i < |b.entries|
        ensures Printable(InKeyOrder(b.entries)[i].value)
          && InKeyOrder(b.entries)[i].value < b { EntryParts(b.entries, i); }
      var x, y := EncodeMembers(a, InKeyOrder(a.entries)), EncodeMembers(b, InKeyOrder(b.entries));
      forall i | 0 <= i < |a.entries| ensures x[i] == y[i] {
        EntryParts(a.entries, i);
        EntryParts(b.entries, i);
        SameText(InKeyOrder(a.entries)[i].value, InKeyOrder(b.entries)[i].value);
      }
      assert x == y;
    }
  }

  // ---------- texts tell values apart ----------

  /** What may follow a value inside a larger text. */
  predicate Ends(t: Text) { t == [] || t[0] in {COMMA, 93, 125} }

  /** The first unit of a value's text tells its kind. */
  function Opening(v: Value): set<CodeUnit> {
    match v
    case Null | NotFinite => {110}
    case Bool(flag) => if flag then {116} else {102}
    case Num(_) => {45, 48, 49, 50, 51, 52, 53, 54, 55, 56, 57}
    case Str(_) => {QUOTE}
    case Arr(_) => {91}
    case Obj(_) => {123}
    case Undefined => {}
  }

  lemma EncodeOpens(v: Value)
    requires Printable(v)
    ensures Encode(v) != [] && Encode(v)[0] in Opening(v)
  {
  }

  /** How far a text goes on with number characters. */
  function NumberLength(t: Text): nat {
    if t == [] || !NumberChar(t[0]) then 0 else 1 + NumberLength(t[1..])
  }

  lemma {:induction false} NumberStops(a: Text, x: Text)
    requires (forall i :: 0 <= i < |a| ==> NumberChar(a[i])) && Ends(x)
    ensures NumberLength(a + x) == |a|
  {
    if a == [] {
      assert a + x == x;
    } else {
      NumberStops(a[1..], x);
      assert (a + x)[1..] == a[1..] + x;
    }
  }

  lemma NumberSeparates(a: NumberText, b: NumberText, x: Text, y: Text)
    requires a + x == b + y && Ends(x) && Ends(y)
    ensures a == b && x == y
  {
    NumberStops(a, x);
    NumberStops(b, y);
    assert (a + x)[..|a|] == a && (b + y)[..|b|] == b;
    assert (a + x)[|a|..] == x && (b + y)[|b|..] == y;
  }

  /** What follows the first text of a joined list. */
  function Tail(texts: seq<Text>, close: CodeUnit, x: Text): Text {
    if texts == [] then [close] + x else [COMMA] + Join(texts) + [close] + x
  }

  lemma TailEnds(texts: seq<Text>, close: CodeUnit, x: Text)
    requires close in {93, 125}
    ensures Ends(Tail(texts, close, x))
  {
  }

  lemma JoinSplits(texts: seq<Text>, close: CodeUnit, x: Text)
    requires texts != []
    ensures Join(texts) + [close] + x == texts[0] + Tail(texts[1..], close, x)
  {
  }

  lemma CutFirst(u: CodeUnit, x: Text, y: Text)
    requires [u] + x == [u] + y
    ensures x == y
  {
    assert ([u] + x)[1..] == x && ([u] + y)[1..] == y;
  }

  lemma TailsAgree(a: seq<Text>, b: seq<Text>, close: CodeUnit, x: Text, y: Text)
    requires Tail(a, close, x) == Tail(b, close, y) && close in {93, 125}
    ensures a == [] <==> b == []
    ensures a == [] ==> x == y
    ensures a != [] ==> Join(a) + [close] + x == Join(b) + [close] + y
  {
    assert Tail(a, close, x)[0] == (if a == [] then close else COMMA);
    assert Tail(b, close, y)[0] == (if b == [] then close else COMMA);
    if a == [] {
      CutFirst(close, x, y);
    } else {
      assert Tail(a, close, x) == [COMMA] + (Join(a) + [close] + x)
        && Tail(b, close, y) == [COMMA] + (Join(b) + [close] + y);
      CutFirst(COMMA, Join(a) + [close] + x, Join(b) + [close] + y);
    }
  }

  /** Texts followed by anything that may follow them determine the value and the rest. */
  lemma {:induction false} TextSeparates(a: Value, b: Value, x: Text, y: Text)
    requires WellFormed(a) && WellFormed(b) && Printable(a) && Printable(b)
    requires Encode(a) + x == Encode(b) + y && Ends(x) && Ends(y)
    ensures Same(a, b) && x == y
    decreases a
  {
    EncodeOpens(a);
    EncodeOpens(b);
    assert (Encode(a) + x)[0] == Encode(a)[0] && (Encode(b) + y)[0] == Encode(b)[0];
    SameKind(a, b, Encode(a)[0]);
    if a.Num? {
      NumberSeparates(a.number, b.number, x, y);
    } else if a.Str? {
      QuoteSeparates(a.text, b.text, x, y);
    } else if a.Arr? {
      ArraysSeparate(a, b, x, y);
    } else if a.Obj? {
      ObjectsSeparate(a, b, x, y);
    } else {
      CutSame(Encode(a), x, y);
    }
  }

  lemma CutSame(t: Text, x: Text, y: Text)
    requires t + x == t + y
    ensures x == y
  {
    assert (t + x)[|t|..] == x && (t + y)[|t|..] == y;
  }

  lemma SameKind(a: Value, b: Value, u: CodeUnit)
    requires u in Opening(a) && u in Opening(b)
    ensures a.Bool? <==> b.Bool?
    ensures a.Bool? ==> a == b
    ensures (a.Num? <==> b.Num?) && (a.Str? <==> b.Str?) && (a.Arr? <==> b.Arr?) && (a.Obj? <==> b.Obj?)
    ensures (a.Null? || a.NotFinite?) <==> (b.Null? || b.NotFinite?)
  {
  }

  lemma {:induction false} ArraysSeparate(a: Value, b: Value, x: Text, y: Text)
    requires a.Arr? && b.Arr? && WellFormed(a) && WellFormed(b) && Printable(a) && Printable(b)
    requires Encode(a) + x == Encode(b) + y && Ends(x) && Ends(y)
    ensures Same(a, b) && x == y
    decreases a, |a.items| + 1
  {
    var s, t := EncodeItems(a, a.items), EncodeItems(b, b.items);
    assert Encode(a) + x == [91] + (Join(s) + [93] + x) && Encode(b) + y == [91] + (Join(t) + [93] + y);
    CutFirst(91, Join(s) + [93] + x, Join(t) + [93] + y);
    ItemsSeparate(a, a.items, b, b.items, x, y);
  }

  lemma {:induction false} ItemsSeparate(a: Value, items: seq<Value>, b: Value, others: seq<Value>, x: Text, y: Text)
    requires forall i :: 0 <= i < |items| ==> items[i] < a && Printable(items[i]) && WellFormed(items[i])
    requires forall i :: 0 <= i < |others| ==> others[i] < b && Printable(others[i]) && WellFormed(others[i])
    requires Join(EncodeItems(a, items)) + [93] + x == Join(EncodeItems(b, others)) + [93] + y
    ensures |items| == |others| && (forall i :: 0 <= i < |items| ==> Same(items[i], others[i])) && x == y
    decreases a, |items|
  {
    hide Encode, Same, Join, Ends, Tail, WellFormed, Printable;
    if items == [] || others == [] {
      EmptyItems(a, items, b, others, x, y);
    } else {
      var s, t := ItemsHead(a, items, b, others, x, y);
      TextSeparates(items[0], others[0], Tail(s, 93, x), Tail(t, 93, y));
      TailsAgree(s, t, 93, x, y);
      if s != [] {
        ItemsSeparate(a, items[1..], b, others[1..], x, y);
        forall i | 0 <= i < |items| ensures Same(items[i], others[i]) {
          if i > 0 { assert items[i] == items[1..][i - 1] && others[i] == others[1..][i - 1]; }
        }
      }
    }
  }

  lemma ItemsHead(a: Value, items: seq<Value>, b: Value, others: seq<Value>, x: Text, y: Text)
    returns (s: seq<Text>, t: seq<Text>)
    requires forall i :: 0 <= i < |items| ==> items[i] < a && Printable(items[i])
    requires forall i :: 0 <= i < |others| ==> others[i] < b && Printable(others[i])
    requires items != [] && others != []
    requires Join(EncodeItems(a, items)) + [93] + x == Join(EncodeItems(b, others)) + [93] + y
    ensures s == EncodeItems(a, items[1..]) && t == EncodeItems(b, others[1..])
    ensures Encode(items[0]) + Tail(s, 93, x) == Encode(others[0]) + Tail(t, 93, y) && Ends(Tail(s, 93, x))
      && Ends(Tail(t, 93, y))
  {
    hide Encode, Join, Ends, Tail, Printable;
    var all, every := EncodeItems(a, items), EncodeItems(b, others);
    s, t := EncodeItems(a, items[1..]), EncodeItems(b, others[1..]);
    assert all[1..] == s && every[1..] == t;
    JoinSplits(all, 93, x);
    JoinSplits(every, 93, y);
    TailEnds(s, 93, x);
    TailEnds(t, 93, y);
  }

  /** A non-empty list does not start like the end of an empty one. */
  lemma ItemsOpen(a: Value, items: seq<Value>, x: Text)
    requires forall i :: 0 <= i < |items| ==> items[i] < a && Printable(items[i])
    ensures
      var t := Join(EncodeItems(a, items)) + [93] + x;
      t != [] && (t[0] == 93 <==> items == []) && (items == [] ==> t == [93] + x)
  {
    if items != [] {
      JoinSplits(EncodeItems(a, items), 93, x);
      EncodeOpens(items[0]);
    }
  }

  lemma EmptyItems(a: Value, items: seq<Value>, b: Value, others: seq<Value>, x: Text, y: Text)
    requires forall i :: 0 <= i < |items| ==> items[i] < a && Printable(items[i])
    requires forall i :: 0 <= i < |others| ==> others[i] < b && Printable(others[i])
    requires items == [] || others == []
    requires Join(EncodeItems(a, items)) + [93] + x == Join(EncodeItems(b, others)) + [93] + y
    ensures items == others == [] && x == y
  {
    ItemsOpen(a, items, x);
    ItemsOpen(b, others, y);
    CutFirst(93, x, y);
  }

  lemma MemberSplits(context: Value, entries: seq<Entry>, x: Text)
    requires forall i :: 0 <= i < |entries| ==> entries[i].value < context && Printable(entries[i].value)
    requires entries != []
    ensures
      var s := EncodeMembers(context, entries);
      Join(s) + [125] + x == Quote(entries[0].key) + ([COLON] + (Encode(entries[0].value) + Tail(s[1..], 125, x)))
  {
    hide Encode, Join, Tail, Quote;
    var s := EncodeMembers(context, entries);
    JoinSplits(s, 125, x);
    assert s[0] == Quote(entries[0].key) + [COLON] + Encode(entries[0].value);
  }

  lemma {:induction false} MembersSeparate(a: Value, entries: seq<Entry>, b: Value, others: seq<Entry>, x: Text,
      y: Text)
    requires forall i :: 0 <= i < |entries| ==>
      entries[i].value < a && Printable(entries[i].value) && WellFormed(entries[i].value)
    requires forall i :: 0 <= i < |others| ==>
      others[i].value < b && Printable(others[i].value) && WellFormed(others[i].value)
    requires Join(EncodeMembers(a, entries)) + [125] + x == Join(EncodeMembers(b, others)) + [125] + y
    ensures |entries| == |others| && x == y
    ensures forall i :: 0 <= i < |entries| ==>
      entries[i].key == others[i].key && Same(entries[i].value, others[i].value)
    decreases a, |entries|
  {
    hide Encode, Same, Join, Ends, Tail, Quote, WellFormed, Printable;
    if entries == [] || others == [] {
      EmptyMembers(a, entries, b, others, x, y);
    } else {
      var s, t := MembersHead(a, entries, b, others, x, y);
      TextSeparates(entries[0].value, others[0].value, Tail(s, 125, x), Tail(t, 125, y));
      TailsAgree(s, t, 125, x, y);
      if s != [] {
        MembersSeparate(a, entries[1..], b, others[1..], x, y);
        forall i | 0 <= i < |entries|
          ensures entries[i].key == others[i].key && Same(entries[i].value, others[i].value) {
          if i > 0 { assert entries[i] == entries[1..][i - 1] && others[i] == others[1..][i - 1]; }
        }
      }
    }
  }

  lemma MembersHead(a: Value, entries: seq<Entry>, b: Value, others: seq<Entry>, x: Text, y: Text)
    returns (s: seq<Text>, t: seq<Text>)
    requires forall i :: 0 <= i < |entries| ==> entries[i].value < a && Printable(entries[i].value)
    requires forall i :: 0 <= i < |others| ==> others[i].value < b && Printable(others[i].value)
    requires entries != [] && others != []
    requires Join(EncodeMembers(a, entries)) + [125] + x == Join(EncodeMembers(b, others)) + [125] + y
    ensures s == EncodeMembers(a, entries[1..]) && t == EncodeMembers(b, others[1..])
    ensures entries[0].key == others[0].key
    ensures Encode(entries[0].value) + Tail(s, 125, x) == Encode(others[0].value) + Tail(t, 125, y)
    ensures Ends(Tail(s, 125, x)) && Ends(Tail(t, 125, y))
  {
    hide Encode, Join, Ends, Tail, Printable, Quote;
    s, t := EncodeMembers(a, entries[1..]), EncodeMembers(b, others[1..]);
    assert EncodeMembers(a, entries)[1..] == s && EncodeMembers(b, others)[1..] == t;
    MemberSplits(a, entries, x);
    MemberSplits(b, others, y);
    var u, v := Encode(entries[0].value) + Tail(s, 125, x), Encode(others[0].value) + Tail(t, 125, y);
    QuoteSeparates(entries[0].key, others[0].key, [COLON] + u, [COLON] + v);
    CutFirst(COLON, u, v);
    TailEnds(s, 125, x);
    TailEnds(t, 125, y);
  }

  lemma MembersOpen(a: Value, entries: seq<Entry>, x: Text)
    requires forall i :: 0 <= i < |entries| ==> entries[i].value < a && Printable(entries[i].value)
    ensures
      var t := Join(EncodeMembers(a, entries)) + [125] + x;
      t != [] && (t[0] == 125 <==> entries == []) && (entries == [] ==> t == [125] + x)
  {
    if entries != [] {
      MemberSplits(a, entries, x);
      assert Quote(entries[0].key)[0] == QUOTE;
    }
  }

  lemma EmptyMembers(a: Value, entries: seq<Entry>, b: Value, others: seq<Entry>, x: Text, y: Text)
    requires forall i :: 0 <= i < |entries| ==> entries[i].value < a && Printable(entries[i].value)
    requires forall i :: 0 <= i < |others| ==> others[i].value < b && Printable(others[i].value)
    requires entries == [] || others == []
    requires Join(EncodeMembers(a, entries)) + [125] + x == Join(EncodeMembers(b, others)) + [125] + y
    ensures entries == others == [] && x == y
  {
    MembersOpen(a, entries, x);
    MembersOpen(b, others, y);
    CutFirst(125, x, y);
  }

  lemma {:induction false} ObjectsSeparate(a: Value, b: Value, x: Text, y: Text)
    requires a.Obj? && b.Obj? && WellFormed(a) && WellFormed(b) && Printable(a) && Printable(b)
    requires Encode(a) + x == Encode(b) + y && Ends(x) && Ends(y)
    ensures Same(a, b) && x == y
    decreases a, |a.entries| + 1
  {
    var p, q := InKeyOrder(a.entries), InKeyOrder(b.entries);
    forall i | 0 <= i < |p|
      ensures WellFormed(p[i].value) && Printable(p[i].value) && p[i].value < a { EntryParts(a.entries, i); }
    forall i | 0 <= i < |q|
      ensures WellFormed(q[i].value) && Printable(q[i].value) && q[i].value < b { EntryParts(b.entries, i); }
    var s, t := EncodeMembers(a, p), EncodeMembers(b, q);
    ObjectText(a, p, x);
    ObjectText(b, q, y);
    hide Encode, Join, WellFormed, Same;
    CutFirst(123, Join(s) + [125] + x, Join(t) + [125] + y);
    MembersSeparate(a, p, b, q, x, y);
    DistinctOf(a);
    DistinctOf(b);
    InOrderSame(a.entries, b.entries);
  }

  lemma DistinctOf(a: Value)
    requires a.Obj? && WellFormed(a)
    ensures DistinctKeys(a.entries)
  {
  }

  lemma ObjectText(a: Value, p: seq<Entry>, x: Text)
    requires a.Obj? && Printable(a) && p == InKeyOrder(a.entries)
    requires forall i :: 0 <= i < |p| ==> Printable(p[i].value) && p[i].value < a
    ensures Encode(a) + x == [123] + (Join(EncodeMembers(a, p)) + [125] + x)
  {
  }

  /** Canonical text is injective and blind to key order: two JSON values have the same
      text exactly when they are equal up to the order of object keys, at any depth. */
  lemma CanonicalTextIsIdentity(a: Value, b: Value)
    requires WellFormed(a) && WellFormed(b) && Printable(a) && Printable(b)
    ensures Canonical(a) == Canonical(b) <==> Same(a, b)
  {
    if Same(a, b) { SameText(a, b); }
    if Canonical(a) == Canonical(b) {
      assert Encode(a) + [] == Encode(b) + [];
      TextSeparates(a, b, [], []);
    }
  }
}
