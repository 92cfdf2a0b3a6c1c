/** JSON Pointer, sections 3 (syntax), 4 (evaluation) and the escaping between them, RFC 6901. */
module JsonPointer {
  import opened Options
  import opened JsonSchema
  import Decimals
  import opened Replacing
  import opened Sequences

  function Escape(token: string): string { ReplaceAll(ReplaceAll(token, '~', "~0"), '/', "~1") }

  /** Every `~` must open `~0` or `~1`. */
  function Unescape(text: string): Option<string> {
    if text == "" then Some("")
    else if text[0] != '~' then Prepend(text[0], Unescape(text[1..]))
    else if |text| > 1 && text[1] == '0' then Prepend('~', Unescape(text[2..]))
    else if |text| > 1 && text[1] == '1' then Prepend('/', Unescape(text[2..]))
    else None
  }

  function Prepend(c: char, rest: Option<string>): Option<string> {
    if rest.None? then None else Some([c] + rest.value)
  }

  function TokenEnd(text: string): (n: nat)
    ensures n <= |text|
  {
    if text == "" || text[0] == '/' then 0 else 1 + TokenEnd(text[1..])
  }

  /** The reference tokens of a pointer; `None` when it is not a pointer. */
  function Tokens(pointer: string): Option<seq<string>>
    decreases |pointer|
  {
    if pointer == "" then Some([])
    else if pointer[0] != '/' then None
    else
      var body := pointer[1..];
      var n := TokenEnd(body);
      var token, rest := Unescape(body[..n]), Tokens(body[n..]);
      if token.None? || rest.None? then None else Some([token.value] + rest.value)
  }

  function PointerText(tokens: seq<string>): string {
    if tokens == [] then "" else "/" + Escape(tokens[0]) + PointerText(tokens[1..])
  }

  /** An array index has no leading zero; `-` names no element. */
  function ArrayIndex(token: string): Option<nat> {
    if Decimals.Digits(token) && (token[0] != '0' || |token| == 1) then Some(Decimals.ValueOf(token)) else None
  }

  function Resolve(v: Json, tokens: seq<string>): Option<Json>
    decreases |tokens|
  {
    if tokens == [] then Some(v)
    else match v
      case Obj(members) => if tokens[0] in members then Resolve(members[tokens[0]], tokens[1..]) else None
      case Arr(items) =>
        var index := ArrayIndex(tokens[0]);
        if index.Some? && index.value < |items| then Resolve(items[index.value], tokens[1..]) else None
      case _ => None
  }

  // ---------- escaping round trip ----------

  function EscapeChar(c: char): string { if c == '~' then "~0" else if c == '/' then "~1" else [c] }

  lemma EscapeStep(token: string)
    requires token != ""
    ensures Escape(token) == EscapeChar(token[0]) + Escape(token[1..])
  {
    var first := if token[0] == '~' then "~0" else [token[0]];
    var rest := ReplaceAll(token[1..], '~', "~0");
    assert ReplaceAll(token, '~', "~0") == first + rest;
    ReplaceAllAppend(first, rest, '/', "~1");
    ReplaceOne(token[0]);
  }

  lemma ReplaceOne(c: char)
    ensures ReplaceAll(if c == '~' then "~0" else [c], '/', "~1") == EscapeChar(c)
  {
    if c == '~' {
      assert "~0"[1..] == "0" && "0"[1..] == "";
      assert ReplaceAll("0", '/', "~1") == "0";
    } else {
      assert [c][1..] == "";
    }
  }

  lemma {:induction false} EscapeAppend(a: string, b: string)
    ensures Escape(a + b) == Escape(a) + Escape(b)
  {
    ReplaceAllAppend(a, b, '~', "~0");
    ReplaceAllAppend(ReplaceAll(a, '~', "~0"), ReplaceAll(b, '~', "~0"), '/', "~1");
  }

  /** Escaping loses nothing and leaves no separator inside a token. */
  lemma {:induction false} EscapeRoundTrip(token: string)
    ensures Unescape(Escape(token)) == Some(token)
    ensures '/' !in Escape(token)
  {
    if token == "" {
    } else {
      EscapeStep(token);
      EscapeRoundTrip(token[1..]);
      var rest := Escape(token[1..]);
      var text := EscapeChar(token[0]) + rest;
      if token[0] == '~' || token[0] == '/' {
        assert text[0] == '~' && text[2..] == rest;
      } else {
        assert text[0] == token[0] && text[1..] == rest;
      }
      assert token == [token[0]] + token[1..];
    }
  }

  lemma {:induction false} EscapePlain(token: string)
    requires '/' !in token && '~' !in token
    ensures Escape(token) == token
  {
    if token != "" {
      EscapeStep(token);
      EscapePlain(token[1..]);
    }
  }

  // ---------- pointers print and parse ----------

  predicate StartsToken(text: string) { text == "" || text[0] == '/' }

  lemma {:induction false} TokenEndStops(token: string, rest: string)
    requires '/' !in token && StartsToken(rest)
    ensures TokenEnd(token + rest) == |token|
  {
    if token == "" {
      assert token + rest == rest;
    } else {
      TokenEndStops(token[1..], rest);
      assert (token + rest)[1..] == token[1..] + rest;
    }
  }

  lemma TokensStep(token: string, rest: string)
    requires StartsToken(rest)
    ensures Tokens("/" + Escape(token) + rest)
      == if Tokens(rest).None? then None else Some([token] + Tokens(rest).value)
  {
    EscapeRoundTrip(token);
    var body := Escape(token) + rest;
    TokenEndStops(Escape(token), rest);
    assert ("/" + Escape(token) + rest)[1..] == body;
    assert body[..|Escape(token)|] == Escape(token) && body[|Escape(token)|..] == rest;
  }

  /** A printed pointer parses to its tokens, whatever pointer text follows. */
  lemma {:induction false} PointerParses(tokens: seq<string>, rest: string)
    requires StartsToken(rest)
    ensures Tokens(PointerText(tokens) + rest) == if Tokens(rest).None? then None else Some(tokens + Tokens(rest).value)
    ensures StartsToken(PointerText(tokens) + rest)
  {
    hide Escape, Tokens;
    if tokens == [] {
      assert PointerText(tokens) + rest == rest;
      if Tokens(rest).Some? { assert tokens + Tokens(rest).value == Tokens(rest).value; }
    } else {
      PointerParses(tokens[1..], rest);
      TokensStep(tokens[0], PointerText(tokens[1..]) + rest);
      Associate("/" + Escape(tokens[0]), PointerText(tokens[1..]), rest);
      if Tokens(rest).Some? {
        Associate([tokens[0]], tokens[1..], Tokens(rest).value);
        assert [tokens[0]] + tokens[1..] == tokens;
      }
    }
  }

  /** Different token lists print differently. */
  lemma PointerTextSeparates(a: seq<string>, b: seq<string>)
    ensures PointerText(a) == PointerText(b) <==> a == b
  {
    PointerParses(a, "");
    PointerParses(b, "");
    assert PointerText(a) + "" == PointerText(a) && PointerText(b) + "" == PointerText(b);
    assert Tokens("") == Some([]) && a + [] == a && b + [] == b;
  }

  /** What unescapes was written by escaping: nothing else stands for the token. */
  lemma {:induction false} UnescapedWasEscaped(text: string)
    requires Unescape(text).Some? && '/' !in text
    ensures Escape(Unescape(text).value) == text
    decreases |text|
  {
    if text != "" {
      var rest := if text[0] == '~' then text[2..] else text[1..];
      UnescapedWasEscaped(rest);
      var token := Unescape(text).value;
      EscapeStep(token);
      assert token[1..] == Unescape(rest).value;
      assert text == EscapeChar(token[0]) + rest;
    }
  }

  lemma {:induction false} TokenEndIsFree(text: string)
    ensures '/' !in text[..TokenEnd(text)] && StartsToken(text[TokenEnd(text)..])
  {
    if text != "" && text[0] != '/' {
      TokenEndIsFree(text[1..]);
      var n := TokenEnd(text[1..]);
      assert text[..n + 1] == [text[0]] + text[1..][..n] && text[n + 1..] == text[1..][n..];
    }
  }

  /** A text is a pointer exactly if it is printed from tokens, and then they are its tokens. */
  lemma {:induction false} TokensArePrinted(pointer: string, tokens: seq<string>)
    ensures Tokens(pointer) == Some(tokens) <==> pointer == PointerText(tokens)
    decreases |pointer|
  {
    hide Escape, Unescape;
    if pointer == PointerText(tokens) {
      PointerParses(tokens, "");
      assert PointerText(tokens) + "" == PointerText(tokens) && tokens + [] == tokens && Tokens("") == Some([]);
    }
    if pointer != "" && Tokens(pointer) == Some(tokens) {
      var body := pointer[1..];
      var n := TokenEnd(body);
      TokenEndIsFree(body);
      UnescapedWasEscaped(body[..n]);
      TokensArePrinted(body[n..], tokens[1..]);
      assert pointer == "/" + body[..n] + body[n..];
    }
  }

  /** An array index is exactly the printed number. */
  lemma IndexIsPrinted(token: string, n: nat)
    ensures ArrayIndex(token) == Some(n) <==> token == Decimals.Print(n)
  {
    if token == Decimals.Print(n) { Decimals.PrintHasNoZero(n); }
    if ArrayIndex(token) == Some(n) { Decimals.PrintsParsed(token); }
  }

  lemma ResolveStep(members: map<string, Json>, key: string, rest: seq<string>)
    requires key in members
    ensures Resolve(Obj(members), [key] + rest) == Resolve(members[key], rest)
  {
    assert ([key] + rest)[1..] == rest;
  }

  lemma ResolveHere(v: Json)
    ensures Resolve(v, []) == Some(v)
  {
  }

  lemma {:induction false} ResolveSplit(v: Json, a: seq<string>, b: seq<string>)
    ensures Resolve(v, a + b) == if Resolve(v, a).None? then None else Resolve(Resolve(v, a).value, b)
    decreases |a|
  {
    if a == [] {
      assert a + b == b;
    } else {
      assert (a + b)[1..] == a[1..] + b;
      match v {
        case Obj(members) => if a[0] in members { ResolveSplit(members[a[0]], a[1..], b); }
        case Arr(items) =>
          var index := ArrayIndex(a[0]);
          if index.Some? && index.value < |items| { ResolveSplit(items[index.value], a[1..], b); }
        case _ =>
      }
    }
  }
}
