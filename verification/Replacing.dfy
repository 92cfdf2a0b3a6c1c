/** Replacing every occurrence of one character. */
module Replacing {
  import opened Sequences

  /** `text.replaceAll(c, to)` for a one-character pattern */
  function ReplaceAll(text: string, c: char, to: string): string {
    if text == "" then "" else (if text[0] == c then to else [text[0]]) + ReplaceAll(text[1..], c, to)
  }

  lemma ReplaceAllCons(head: char, rest: string, c: char, to: string)
    ensures ReplaceAll([head] + rest, c, to) == (if head == c then to else [head]) + ReplaceAll(rest, c, to)
  {
    assert ([head] + rest)[1..] == rest;
  }

  lemma {:induction false} ReplaceAllAppend(a: string, b: string, c: char, to: string)
    ensures ReplaceAll(a + b, c, to) == ReplaceAll(a, c, to) + ReplaceAll(b, c, to)
  {
    if a == "" {
      assert a + b == b;
    } else {
      hide ReplaceAll;
      var head, rest := a[0], a[1..];
      assert a == [head] + rest;
      ReplaceAllCons(head, rest, c, to);
      Associate([head], rest, b);
      ReplaceAllCons(head, rest + b, c, to);
      ReplaceAllAppend(rest, b, c, to);
      Associate(if head == c then to else [head], ReplaceAll(rest, c, to), ReplaceAll(b, c, to));
    }
  }
}
