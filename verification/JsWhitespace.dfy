/** White space as `String.prototype.trim` sees it. */
module JsWhitespace {
  predicate IsSpace(c: char) {
    '\t' <= c <= '\r' || c == ' ' || c == '\U{00A0}' || c == '\U{1680}' || '\U{2000}' <= c <= '\U{200A}'
    || c == '\U{2028}' || c == '\U{2029}' || c == '\U{202F}' || c == '\U{205F}' || c == '\U{3000}' || c == '\U{FEFF}'
  }

  predicate Blank(text: string) { forall i :: 0 <= i < |text| ==> IsSpace(text[i]) }

  function TrimStart(text: string): (r: string)
    ensures |r| <= |text| && r == text[|text| - |r|..]
    ensures r != [] ==> !IsSpace(r[0])
    ensures r == [] <==> Blank(text)
    ensures Blank(text[..|text| - |r|])
  {
    if text == [] then [] else if IsSpace(text[0]) then TrimStart(text[1..]) else text
  }

  function TrimEnd(text: string): (r: string)
    ensures |r| <= |text| && r == text[..|r|]
    ensures r != [] ==> !IsSpace(r[|r| - 1])
    ensures r == [] <==> Blank(text)
    ensures Blank(text[|r|..])
  {
    if text == [] then [] else if IsSpace(text[|text| - 1]) then TrimEnd(text[..|text| - 1]) else text
  }

  function Trim(text: string): (r: string)
    ensures r != [] ==> !IsSpace(r[0]) && !IsSpace(r[|r| - 1])
    ensures r == [] <==> Blank(text)
    ensures Trimmed(text) ==> r == text
    ensures forall c :: c in r ==> c in text
    ensures |r| <= |text|
  {
    TrimEnd(TrimStart(text))
  }

  /** What is left is a part of the text with nothing but white space around it. */
  lemma TrimIsInside(text: string) returns (n: nat)
    ensures var r := Trim(text);
      n + |r| <= |text| && r == text[n..n + |r|] && Blank(text[..n]) && Blank(text[n + |r|..])
  {
    var s := TrimStart(text);
    n := |text| - |s|;
    assert s == text[n..];
    assert s[|Trim(text)|..] == text[n + |Trim(text)|..];
  }

  predicate Trimmed(text: string) { text != [] ==> !IsSpace(text[0]) && !IsSpace(text[|text| - 1]) }
}
