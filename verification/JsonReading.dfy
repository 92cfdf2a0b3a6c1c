/** A reader of JSON texts (sections 2 to 7 of RFC 8259) written without insignificant white
    space, and what it makes of canonical texts. */
module JsonReading {
  import opened Options
  import opened JsText
  import opened JsonString
  import opened CanonicalJson

  datatype One = One(value: Value, rest: Text)
  datatype Items = Items(values: seq<Value>, rest: Text)
  datatype Members = Members(entries: seq<Entry>, rest: Text)

  /** The value a text begins with, and what follows it. */
  function ReadValue(t: Text): (r: Option<One>)
    ensures r.Some? ==> |r.value.rest| < |t|
    decreases |t|, 0
  {
    if t == [] then None
    else if [110, 117, 108, 108] <= t then Some(One(Null, t[4..]))
    else if [116, 114, 117, 101] <= t then Some(One(Bool(true), t[4..]))
    else if [102, 97, 108, 115, 101] <= t then Some(One(Bool(false), t[5..]))
    else if t[0] == QUOTE then
      var text := ReadUntilQuote(t[1..]);
      if text.None? || |text.value.rest| >= |t| then None else Some(One(Str(text.value.text), text.value.rest))
    else if t[0] == 91 then
      if |t| > 1 && t[1] == 93 then Some(One(Arr([]), t[2..]))
      else
        var items := ReadItems(t[1..]);
        if items.None? then None else Some(One(Arr(items.value.values), items.value.rest))
    else if t[0] == 123 then
      if |t| > 1 && t[1] == 125 then Some(One(Obj([]), t[2..]))
      else
        var members := ReadMembers(t[1..]);
        if members.None? then None else Some(One(Obj(members.value.entries), members.value.rest))
    else
      var n := NumberLength(t);
      if n <= |t| && IsNumberText(t[..n]) then Some(One(Num(t[..n]), t[n..])) else None
  }

  /** Values with commas between them, up to the closing bracket. */
  function ReadItems(t: Text): (r: Option<Items>)
    ensures r.Some? ==> |r.value.rest| < |t|
    decreases |t|, 1
  {
    var first := ReadValue(t);
    if first.None? || first.value.rest == [] then None
    else
      var rest := first.value.rest;
      if rest[0] == 93 then Some(Items([first.value.value], rest[1..]))
      else if rest[0] != COMMA then None
      else
        var more := ReadItems(rest[1..]);
        if more.None? then None else Some(Items([first.value.value] + more.value.values, more.value.rest))
  }

  /** Members with commas between them, up to the closing brace. */
  function ReadMembers(t: Text): (r: Option<Members>)
    ensures r.Some? ==> |r.value.rest| < |t|
    decreases |t|, 1
  {
    if t == [] || t[0] != QUOTE then None
    else
      var key := ReadUntilQuote(t[1..]);
      if key.None? || |key.value.rest| >= |t| || key.value.rest == [] || key.value.rest[0] != COLON then None
      else
        var first := ReadValue(key.value.rest[1..]);
        if first.None? || first.value.rest == [] then None
        else
          var entry, rest := Entry(key.value.text, first.value.value), first.value.rest;
          if rest[0] == 125 then Some(Members([entry], rest[1..]))
          else if rest[0] != COMMA then None
          else
            var more := ReadMembers(rest[1..]);
            if more.None? then None else Some(Members([entry] + more.value.entries, more.value.rest))
  }

  // ---------- canonical texts ----------

  lemma QuotedReads(s: Text, rest: Text)
    ensures ReadUntilQuote((Quote(s) + rest)[1..]) == Some(Read(s, rest))
    ensures (Quote(s) + rest)[0] == QUOTE && |Quote(s) + rest| > |rest|
  {
    assert (Quote(s) + rest)[1..] == Escape(s) + ([QUOTE] + rest);
    ReadQuoted(s, rest);
  }

  lemma NumberReads(number: NumberText, rest: Text)
    requires Ends(rest)
    ensures ReadValue(number + rest) == Some(One(Num(number), rest))
  {
    var t := number + rest;
    NumberStops(number, rest);
    assert t[..|number|] == number && t[|number|..] == rest;
    assert t[0] == number[0];
  }

  lemma WordReads(v: Value, rest: Text)
    requires v.Null? || v.NotFinite? || v.Bool?
    ensures ReadValue(Encode(v) + rest) == Some(One(if v.Bool? then v else Null, rest))
  {
    var word := Encode(v);
    var t := word + rest;
    assert word <= t && t[0] == word[0] && t[|word|..] == rest;
    assert [110, 117, 108, 108] <= t ==> t[0] == 110;
    assert [116, 114, 117, 101] <= t ==> t[0] == 116;
  }

  lemma StringReads(text: Text, rest: Text)
    ensures ReadValue(Quote(text) + rest) == Some(One(Str(text), rest))
  {
    QuotedReads(text, rest);
    hide Quote, ReadUntilQuote;
  }

  /** A JSON reader gets the value back, its objects in key order, and exactly the text that followed. */
  lemma {:induction false} CanonicalReadsBack(v: Value, rest: Text) returns (w: Value)
    requires WellFormed(v) && Printable(v) && Ends(rest)
    ensures ReadValue(Encode(v) + rest) == Some(One(w, rest)) && Same(v, w)
    decreases v, 2
  {
    match v {
      case Null | NotFinite | Bool(_) =>
        WordReads(v, rest);
        w := if v.Bool? then v else Null;
      case Num(number) =>
        NumberReads(number, rest);
        w := v;
      case Str(text) =>
        StringReads(text, rest);
        w := v;
      case Arr(items) => w := ArrayReads(v, rest);
      case Obj(entries) => w := ObjectReads(v, rest);
    }
  }

  lemma {:induction false} ArrayReads(v: Value, rest: Text) returns (w: Value)
    requires v.Arr? && WellFormed(v) && Printable(v) && Ends(rest)
    ensures ReadValue(Encode(v) + rest) == Some(One(w, rest)) && Same(v, w)
    decreases v, 1
  {
    var texts := EncodeItems(v, v.items);
    assert Encode(v) + rest == [91] + (Join(texts) + [93] + rest);
    ItemsOpen(v, v.items, rest);
    OpensArray(Join(texts) + [93] + rest);
    if v.items == [] {
      w := Arr([]);
      assert ([93] + rest)[1..] == rest;
    } else {
      var values := ItemsRead(v, v.items, rest);
      w := Arr(values);
    }
  }

  /** After an opening bracket comes its closing one, or the items. */
  lemma OpensArray(t: Text)
    requires t != []
    ensures t[0] == 93 ==> ReadValue([91] + t) == Some(One(Arr([]), t[1..]))
    ensures t[0] != 93 && ReadItems(t).Some? ==>
      ReadValue([91] + t) == Some(One(Arr(ReadItems(t).value.values), ReadItems(t).value.rest))
  {
    assert ([91] + t)[1..] == t && ([91] + t)[2..] == t[1..];
  }

  lemma OpensObject(t: Text)
    requires t != []
    ensures t[0] == 125 ==> ReadValue([123] + t) == Some(One(Obj([]), t[1..]))
    ensures t[0] != 125 && ReadMembers(t).Some? ==>
      ReadValue([123] + t) == Some(One(Obj(ReadMembers(t).value.entries), ReadMembers(t).value.rest))
  {
    assert ([123] + t)[1..] == t && ([123] + t)[2..] == t[1..];
  }

  lemma {:induction false} ItemsRead(context: Value, items: seq<Value>, rest: Text) returns (values: seq<Value>)
    requires items != [] && forall i :: 0 <= i < |items| ==>
      items[i] < context && WellFormed(items[i]) && Printable(items[i])
    ensures ReadItems(Join(EncodeItems(context, items)) + [93] + rest) == Some(Items(values, rest))
    ensures |values| == |items| && forall i :: 0 <= i < |items| ==> Same(items[i], values[i])
    decreases context, 0, |items|
  {
    hide Encode, Join, Tail, WellFormed, Printable, Same, ReadValue;
    var texts := EncodeItems(context, items);
    var tail := Tail(texts[1..], 93, rest);
    JoinSplits(texts, 93, rest);
    TailEnds(texts[1..], 93, rest);
    var first := CanonicalReadsBack(items[0], tail);
    assert texts[1..] == EncodeItems(context, items[1..]);
    TailShape(texts[1..], 93, rest);
    if |items| == 1 {
      values := [first];
    } else {
      var more := ItemsRead(context, items[1..], rest);
      values := [first] + more;
      forall i | 0 <= i < |items| ensures Same(items[i], values[i]) {
        if i > 0 { assert items[i] == items[1..][i - 1]; }
      }
    }
  }

  lemma TailShape(texts: seq<Text>, close: CodeUnit, rest: Text)
    ensures var t := Tail(texts, close, rest);
      && t != [] && (texts == [] ==> t[0] == close && t[1..] == rest)
      && (texts != [] ==> t[0] == COMMA && t[1..] == Join(texts) + [close] + rest)
  {
    if texts != [] { assert Tail(texts, close, rest) == [COMMA] + (Join(texts) + [close] + rest); }
  }

  lemma {:induction false} ObjectReads(v: Value, rest: Text) returns (w: Value)
    requires v.Obj? && WellFormed(v) && Printable(v) && Ends(rest)
    ensures ReadValue(Encode(v) + rest) == Some(One(w, rest)) && Same(v, w)
    decreases v, 1
  {
    var sorted := InKeyOrder(v.entries);
    forall i | 0 <= i < |sorted|
      ensures WellFormed(sorted[i].value) && Printable(sorted[i].value) && sorted[i].value < v {
      EntryParts(v.entries, i);
    }
    var texts := EncodeMembers(v, sorted);
    ObjectText(v, sorted, rest);
    MembersOpen(v, sorted, rest);
    OpensObject(Join(texts) + [125] + rest);
    if sorted == [] {
      w := Obj([]);
      assert ([125] + rest)[1..] == rest;
    } else {
      var entries := MembersRead(v, sorted, rest);
      w := Obj(entries);
      DistinctOf(v);
      ReadInOrder(v.entries, entries);
    }
  }

  lemma {:induction false} MembersRead(context: Value, entries: seq<Entry>, rest: Text) returns (read: seq<Entry>)
    requires entries != [] && forall i :: 0 <= i < |entries| ==>
      entries[i].value < context && WellFormed(entries[i].value) && Printable(entries[i].value)
    ensures ReadMembers(Join(EncodeMembers(context, entries)) + [125] + rest) == Some(Members(read, rest))
    ensures |read| == |entries|
    ensures forall i :: 0 <= i < |entries| ==>
      read[i].key == entries[i].key && Same(entries[i].value, read[i].value)
    decreases context, 0, |entries|
  {
    hide Encode, Join, Tail, WellFormed, Printable, Same, ReadValue, Quote, ReadUntilQuote;
    var texts := EncodeMembers(context, entries);
    var tail := Tail(texts[1..], 125, rest);
    MemberSplits(context, entries, rest);
    TailEnds(texts[1..], 125, rest);
    var first := CanonicalReadsBack(entries[0].value, tail);
    var after := [COLON] + (Encode(entries[0].value) + tail);
    QuotedReads(entries[0].key, after);
    assert after[1..] == Encode(entries[0].value) + tail;
    assert texts[1..] == EncodeMembers(context, entries[1..]);
    TailShape(texts[1..], 125, rest);
    var entry := Entry(entries[0].key, first);
    if |entries| == 1 {
      read := [entry];
    } else {
      var more := MembersRead(context, entries[1..], rest);
      read := [entry] + more;
      forall i | 0 <= i < |entries|
        ensures read[i].key == entries[i].key && Same(entries[i].value, read[i].value) {
        if i > 0 { assert entries[i] == entries[1..][i - 1]; }
      }
    }
  }

  /** Members read in key order make the same object. */
  lemma ReadInOrder(entries: seq<Entry>, read: seq<Entry>)
    requires DistinctKeys(entries) && |read| == |entries|
    requires forall i :: 0 <= i < |entries| ==>
      read[i].key == InKeyOrder(entries)[i].key && Same(InKeyOrder(entries)[i].value, read[i].value)
    ensures Same(Obj(entries), Obj(read))
  {
    hide Same;
    SortedDistinct(entries);
    forall i, j | 0 <= i < j < |read| ensures read[i].key != read[j].key {
      assert InKeyOrder(entries)[i].key != InKeyOrder(entries)[j].key;
    }
    forall n | 0 <= n < |entries|
      ensures entries[n].key in Keys(read) && Same(entries[n].value, Lookup(read, entries[n].key))
    {
      var k := PlaceInOrder(entries, n);
      DistinctLookup(read, k);
    }
    SameObjects(entries, read);
  }

  lemma SameObjects(a: seq<Entry>, b: seq<Entry>)
    requires |a| == |b|
    requires forall i :: 0 <= i < |a| ==> a[i].key in Keys(b) && Same(a[i].value, Lookup(b, a[i].key))
    ensures Same(Obj(a), Obj(b))
  {
  }

  lemma SortedDistinct(entries: seq<Entry>)
    requires DistinctKeys(entries)
    ensures DistinctKeys(InKeyOrder(entries))
  {
    var keys, sorted := Keys(entries), Keys(InKeyOrder(entries));
    SortIsSortedPermutation(keys);
    DistinctItems(keys);
    forall i, j | 0 <= i < j < |sorted| ensures sorted[i] != sorted[j] {
      TwiceCounts(sorted, i, j);
      assert multiset(sorted)[sorted[i]] == multiset(keys)[sorted[i]] <= 1;
    }
    forall i, j | 0 <= i < j < |entries| ensures InKeyOrder(entries)[i].key != InKeyOrder(entries)[j].key {
      assert sorted[i] != sorted[j];
    }
  }

  lemma TwiceCounts(s: seq<Text>, i: nat, j: nat)
    requires i < j < |s|
    ensures s[i] == s[j] ==> multiset(s)[s[i]] >= 2
  {
    assert s == s[..i] + [s[i]] + s[i + 1..j] + [s[j]] + s[j + 1..];
  }

  lemma PlaceInOrder(entries: seq<Entry>, n: nat) returns (k: nat)
    requires DistinctKeys(entries) && n < |entries|
    ensures k < |entries| && InKeyOrder(entries)[k] == entries[n]
  {
    SortedKeys(entries);
    DistinctLookup(entries, n);
    assert entries[n].key in Sort(Keys(entries));
    k :| 0 <= k < |Sort(Keys(entries))| && Sort(Keys(entries))[k] == entries[n].key;
    assert Keys(InKeyOrder(entries))[k] == entries[n].key;
    KeyOrderLooksUp(entries, k);
  }
}
