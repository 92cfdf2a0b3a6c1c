/** Splitting and joining text on one separator character. */
module Delimited {
  predicate Free(text: string, separator: char) { separator !in text }

  predicate AllFree(parts: seq<string>, separator: char) { forall i :: 0 <= i < |parts| ==> Free(parts[i], separator) }

  /** `parts.join(separator)` */
  function Join(parts: seq<string>, separator: char): string {
    if |parts| == 0 then "" else if |parts| == 1 then parts[0] else parts[0] + [separator] + Join(parts[1..], separator)
  }

  function First(text: string, separator: char): (n: nat)
    ensures n <= |text| && Free(text[..n], separator)
    ensures n < |text| ==> text[n] == separator
  {
    if text == "" || text[0] == separator then 0 else 1 + First(text[1..], separator)
  }

  /** `text.split(separator)` */
  function Split(text: string, separator: char): (parts: seq<string>)
    ensures |parts| > 0 && AllFree(parts, separator)
    ensures Join(parts, separator) == text
  {
    var n := First(text, separator);
    if n == |text| then
      assert text[..n] == text;
      [text]
    else
      var rest := Split(text[n + 1..], separator);
      assert text == text[..n] + [separator] + text[n + 1..];
      var parts := [text[..n]] + rest;
      assert parts[1..] == rest;
      parts
  }

  lemma {:induction false} FirstAfter(head: string, rest: string, separator: char)
    requires Free(head, separator)
    ensures First(head + [separator] + rest, separator) == |head|
  {
    var text := head + [separator] + rest;
    if head != "" {
      FirstAfter(head[1..], rest, separator);
      assert text[1..] == head[1..] + [separator] + rest;
    }
  }

  lemma {:induction false} FirstNowhere(text: string, separator: char)
    requires Free(text, separator)
    ensures First(text, separator) == |text|
  {
    if text != "" { FirstNowhere(text[1..], separator); }
  }

  lemma JoinCons(head: string, rest: seq<string>, separator: char)
    ensures Join([head] + rest, separator) == if rest == [] then head else head + ([separator] + Join(rest, separator))
  {
    assert ([head] + rest)[1..] == rest;
  }

  lemma SplitCons(head: string, rest: string, separator: char)
    requires Free(head, separator)
    ensures Split(head + ([separator] + rest), separator) == [head] + Split(rest, separator)
    ensures Split(head, separator) == [head]
  {
    hide First, Join;
    var text := head + ([separator] + rest);
    assert text == head + [separator] + rest;
    FirstAfter(head, rest, separator);
    FirstNowhere(head, separator);
    assert text[..|head|] == head && text[|head| + 1..] == rest;
  }

  /** Joining separator-free parts loses nothing. */
  lemma {:induction false} SplitJoined(parts: seq<string>, separator: char)
    requires |parts| > 0 && AllFree(parts, separator)
    ensures Split(Join(parts, separator), separator) == parts
  {
    hide Split, Join;
    var head, rest := parts[0], parts[1..];
    assert parts == [head] + rest;
    JoinCons(head, rest, separator);
    if rest == [] {
      SplitCons(head, "", separator);
    } else {
      SplitCons(head, Join(rest, separator), separator);
      SplitJoined(rest, separator);
    }
  }

  // ---------- separators inside parts ----------

  lemma {:induction false} SplitAppend(head: string, rest: string, separator: char)
    ensures Split(head + ([separator] + rest), separator) == Split(head, separator) + Split(rest, separator)
    decreases |head|
  {
    hide Split, Join;
    var n := First(head, separator);
    if n == |head| {
      assert head == head[..n];
      SplitCons(head, rest, separator);
    } else {
      var first, more := head[..n], head[n + 1..];
      assert head == first + ([separator] + more);
      assert head + ([separator] + rest) == first + ([separator] + (more + ([separator] + rest)));
      SplitCons(first, more + ([separator] + rest), separator);
      SplitCons(first, more, separator);
      SplitAppend(more, rest, separator);
    }
  }

  lemma OnePieceIsFree(text: string, separator: char)
    requires |Split(text, separator)| == 1
    ensures Free(text, separator)
  {
    assert Join(Split(text, separator), separator) == Split(text, separator)[0];
  }

  /** Joined text splits into as many pieces as there were parts only if no part held a separator. */
  lemma {:induction false} PiecesCount(parts: seq<string>, separator: char)
    requires |parts| > 0
    ensures |Split(Join(parts, separator), separator)| >= |parts|
    ensures |Split(Join(parts, separator), separator)| == |parts| ==> AllFree(parts, separator)
  {
    hide Split, Join;
    var head, rest := parts[0], parts[1..];
    assert parts == [head] + rest;
    JoinCons(head, rest, separator);
    if rest == [] {
      if |Split(head, separator)| == 1 { OnePieceIsFree(head, separator); }
    } else {
      SplitAppend(head, Join(rest, separator), separator);
      PiecesCount(rest, separator);
      if |Split(head, separator)| == 1 { OnePieceIsFree(head, separator); }
    }
  }

  /** Two neighbouring parts and their joined text join alike. */
  lemma {:induction false} MergeNeighbours(before: seq<string>, a: string, b: string, after: seq<string>,
      separator: char)
    ensures Join(before + ([a, b] + after), separator) == Join(before + ([a + ([separator] + b)] + after), separator)
  {
    hide Join;
    if before == [] {
      assert before + ([a, b] + after) == [a] + ([b] + after);
      assert before + ([a + ([separator] + b)] + after) == [a + ([separator] + b)] + after;
      JoinCons(a, [b] + after, separator);
      JoinCons(b, after, separator);
      JoinCons(a + ([separator] + b), after, separator);
      if after != [] {
        var tail := [separator] + Join(after, separator);
        assert a + ([separator] + (b + tail)) == (a + ([separator] + b)) + tail;
      }
    } else {
      var head, rest := before[0], before[1..];
      MergeNeighbours(rest, a, b, after, separator);
      assert before + ([a, b] + after) == [head] + (rest + ([a, b] + after));
      assert before + ([a + ([separator] + b)] + after) == [head] + (rest + ([a + ([separator] + b)] + after));
      JoinCons(head, rest + ([a, b] + after), separator);
      JoinCons(head, rest + ([a + ([separator] + b)] + after), separator);
    }
  }

  /** As many parts with the same joined text */
  predicate SameText(parts: seq<string>, others: seq<string>, separator: char) {
    |parts| == |others| && Join(parts, separator) == Join(others, separator)
  }

  /** Separator-free parts are the only ones of their number with their text. */
  lemma FreePartsAreDetermined(parts: seq<string>, others: seq<string>, separator: char)
    requires |parts| > 0 && AllFree(parts, separator) && SameText(parts, others, separator)
    ensures parts == others
  {
    hide Split, Join;
    SplitJoined(parts, separator);
    PiecesCount(others, separator);
    SplitJoined(others, separator);
  }

  /** A separator inside a part can move to a neighbour: the part after it, or the one before the last two. */
  function Shifted(parts: seq<string>, i: nat, separator: char): seq<string>
    requires 0 < i < |parts| && |parts| > 2 && !Free(parts[i], separator)
  {
    var n := First(parts[i], separator);
    if n == |parts[i]| then parts
    else
      var x, y := parts[i][..n], parts[i][n + 1..];
      if i + 2 < |parts| then parts[..i] + ([x, y + ([separator] + parts[i + 1])] + parts[i + 2..])
      else parts[..i - 1] + ([parts[i - 1] + ([separator] + x), y] + parts[i + 1..])
  }

  lemma MoveRight(before: seq<string>, x: string, y: string, z: string, after: seq<string>, separator: char)
    ensures Join(before + ([x + ([separator] + y), z] + after), separator)
         == Join(before + ([x, y + ([separator] + z)] + after), separator)
  {
    hide Join;
    MergeNeighbours(before, x, y, [z] + after, separator);
    MergeNeighbours(before + [x], y, z, after, separator);
    assert before + ([x + ([separator] + y)] + ([z] + after)) == before + ([x + ([separator] + y), z] + after);
    assert before + ([x, y] + ([z] + after)) == (before + [x]) + ([y, z] + after);
    assert (before + [x]) + ([y + ([separator] + z)] + after) == before + ([x, y + ([separator] + z)] + after);
  }

  lemma MoveLeft(before: seq<string>, z: string, x: string, y: string, after: seq<string>, separator: char)
    ensures Join(before + ([z, x + ([separator] + y)] + after), separator)
         == Join(before + ([z + ([separator] + x), y] + after), separator)
  {
    hide Join;
    MoveRight(before, z, x, y, after, separator);
  }

  lemma CutAtSeparator(text: string, separator: char)
    requires !Free(text, separator)
    ensures var n := First(text, separator); n < |text| && text == text[..n] + ([separator] + text[n + 1..])
  {
    assert text[..|text|] == text;
  }

  lemma ShiftRightIsOther(parts: seq<string>, i: nat, x: string, y: string, separator: char)
    requires 1 <= i && i + 2 < |parts| && parts[i] == x + ([separator] + y)
    ensures var shifted := parts[..i] + ([x, y + ([separator] + parts[i + 1])] + parts[i + 2..]);
      SameText(parts, shifted, separator) && shifted != parts && shifted[0] == parts[0]
  {
    hide Join;
    var shifted := parts[..i] + ([x, y + ([separator] + parts[i + 1])] + parts[i + 2..]);
    MoveRight(parts[..i], x, y, parts[i + 1], parts[i + 2..], separator);
    assert parts == parts[..i] + ([parts[i], parts[i + 1]] + parts[i + 2..]);
    assert |shifted| == |parts| && |shifted[i]| < |parts[i]|;
  }

  lemma ShiftLeftIsOther(parts: seq<string>, i: nat, x: string, y: string, separator: char)
    requires 2 <= i < |parts| && parts[i] == x + ([separator] + y)
    ensures var shifted := parts[..i - 1] + ([parts[i - 1] + ([separator] + x), y] + parts[i + 1..]);
      SameText(parts, shifted, separator) && shifted != parts && shifted[0] == parts[0]
  {
    hide Join;
    var shifted := parts[..i - 1] + ([parts[i - 1] + ([separator] + x), y] + parts[i + 1..]);
    MoveLeft(parts[..i - 1], parts[i - 1], x, y, parts[i + 1..], separator);
    assert parts == parts[..i - 1] + ([parts[i - 1], parts[i]] + parts[i + 1..]);
    assert |shifted| == |parts| && |shifted[i]| < |parts[i]|;
  }

  /** Moving a separator keeps the text and the first part, and changes the list. */
  lemma ShiftedIsOther(parts: seq<string>, i: nat, separator: char)
    requires |parts| > 3 && 1 <= i < |parts| && !Free(parts[i], separator)
    ensures SameText(parts, Shifted(parts, i, separator), separator)
    ensures Shifted(parts, i, separator) != parts && Shifted(parts, i, separator)[0] == parts[0]
  {
    hide First, SameText;
    CutAtSeparator(parts[i], separator);
    var n := First(parts[i], separator);
    var x, y := parts[i][..n], parts[i][n + 1..];
    if i + 2 < |parts| {
      ShiftRightIsOther(parts, i, x, y, separator);
    } else {
      ShiftLeftIsOther(parts, i, x, y, separator);
    }
  }
}
