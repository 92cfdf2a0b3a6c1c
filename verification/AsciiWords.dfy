/** The ASCII words that the identifier patterns name: one character of a class, then any
    number of another. A class is a set of ranges of character codes. */
module AsciiWords {
  const LOWER := (0x61, 0x7A)
  const UPPER := (0x41, 0x5A)
  const DIGITS := (0x30, 0x39)
  const HYPHEN := (0x2D, 0x2D)
  const DOT := (0x2E, 0x2E)
  const UNDERSCORE := (0x5F, 0x5F)

  predicate InClass(c: char, class_: seq<(int, int)>) {
    exists i :: 0 <= i < |class_| && class_[i].0 <= c as int <= class_[i].1
  }

  predicate Word(text: string, first: seq<(int, int)>, more: seq<(int, int)>) {
    text != "" && InClass(text[0], first) && forall i :: 1 <= i < |text| ==> InClass(text[i], more)
  }

  /** Classes of one, up to five ranges, range by range. */
  lemma ClassMeans(class_: seq<(int, int)>)
    requires 1 <= |class_| <= 5
    ensures forall c :: InClass(c, class_) <==>
      || class_[0].0 <= c as int <= class_[0].1
      || (|class_| > 1 && class_[1].0 <= c as int <= class_[1].1)
      || (|class_| > 2 && class_[2].0 <= c as int <= class_[2].1)
      || (|class_| > 3 && class_[3].0 <= c as int <= class_[3].1)
      || (|class_| > 4 && class_[4].0 <= c as int <= class_[4].1)
  {
  }
}
