/** Text other programs read back: the organization cache key and SQL quoting. */
module TextEncodings {
  import opened Options
  import opened Decimals
  import opened Replacing
  import opened Sequences

  // ---------- the cache key ----------

  function OrganizationTenantCacheKey(realm: string, organizationId: string): string {
    Print(|realm|) + ":" + realm + ":" + organizationId
  }

  /** Reads a key back: digits, colon, that many characters, colon, the rest. */
  function ReadKey(key: string): Option<(string, string)> {
    var digits := LeadingDigits(key);
    if digits == "" then None else
    var n, body := ValueOf(digits), key[|digits|..];
    if |body| < n + 2 || body[0] != ':' || body[n + 1] != ':' then None
    else Some((body[1..n + 1], body[n + 2..]))
  }

  lemma {:induction false} DigitsLead(digits: string, rest: string)
    requires AllDigits(digits) && (rest == "" || !IsDigit(rest[0]))
    ensures LeadingDigits(digits + rest) == digits
  {
    if digits == "" {
      assert digits + rest == rest;
    } else {
      DigitsLead(digits[1..], rest);
      assert (digits + rest)[1..] == digits[1..] + rest;
    }
  }

  /** Every key reads back as the one pair it was made of, whatever the two texts hold. */
  lemma KeyReadsBack(realm: string, organizationId: string)
    ensures ReadKey(OrganizationTenantCacheKey(realm, organizationId)) == Some((realm, organizationId))
  {
    var digits, body := Print(|realm|), ":" + realm + ":" + organizationId;
    var key := OrganizationTenantCacheKey(realm, organizationId);
    assert key == digits + body;
    DigitsLead(digits, body);
    assert key[|digits|..] == body;
    assert body[1..|realm| + 1] == realm && body[|realm| + 2..] == organizationId;
  }

  lemma KeysSeparate(realm: string, id: string, otherRealm: string, otherId: string)
    ensures OrganizationTenantCacheKey(realm, id) == OrganizationTenantCacheKey(otherRealm, otherId) <==>
      realm == otherRealm && id == otherId
  {
    KeyReadsBack(realm, id);
    KeyReadsBack(otherRealm, otherId);
  }

  // ---------- the organization a token acts for ----------

  datatype Membership = Membership(alias: string, id: Option<string>)

  predicate Carries(m: Membership) { m.id.Some? && m.id.value != "" }

  /** The token names the alias in an `organization:` scope, the wildcard aside. */
  predicate Selects(scopes: seq<string>, alias: string) {
    exists i :: 0 <= i < |scopes| && scopes[i] == "organization:" + alias && alias != "*"
  }

  /** `all.filter(test)` */
  function Filter(all: seq<Membership>, test: Membership -> bool): seq<Membership> {
    if all == [] then [] else Filter(all[..|all| - 1], test) + if test(all[|all| - 1]) then [all[|all| - 1]] else []
  }

  function Named(scopes: seq<string>): Membership -> bool { (m: Membership) => Selects(scopes, m.alias) }

  function CarryIt(): Membership -> bool { (m: Membership) => Carries(m) }

  function Selection(all: seq<Membership>, scopes: seq<string>): Option<Membership> {
    var memberships := Filter(all, CarryIt());
    if |memberships| == 0 then None
    else if |memberships| == 1 then Some(memberships[0])
    else
      var chosen := Filter(memberships, Named(scopes));
      if |chosen| == 1 then Some(chosen[0]) else None
  }

  method SelectOrganizationMembership(all: seq<Membership>, scopes: seq<string>) returns (r: Option<Membership>)
    ensures r == Selection(all, scopes)
  {
    var memberships: seq<Membership> := [];
    for i := 0 to |all|
      invariant memberships == Filter(all[..i], CarryIt())
    {
      assert all[..i + 1][..i] == all[..i];
      if Carries(all[i]) { memberships := memberships + [all[i]]; }
    }
    assert all[..|all|] == all;
    if |memberships| == 0 { return None; }
    if |memberships| == 1 { return Some(memberships[0]); }
    var chosen: seq<Membership> := [];
    for i := 0 to |memberships|
      invariant chosen == Filter(memberships[..i], Named(scopes))
    {
      assert memberships[..i + 1][..i] == memberships[..i];
      if Selects(scopes, memberships[i].alias) { chosen := chosen + [memberships[i]]; }
    }
    assert memberships[..|memberships|] == memberships;
    r := if |chosen| == 1 then Some(chosen[0]) else None;
  }

  /** Exactly one place satisfies the test, and it holds `m`. */
  ghost predicate Only(all: seq<Membership>, test: Membership -> bool, m: Membership) {
    exists i :: 0 <= i < |all| && all[i] == m && test(all[i]) && forall j :: 0 <= j < |all| && j != i ==> !test(all[j])
  }

  ghost predicate Several(all: seq<Membership>, test: Membership -> bool) {
    exists i, j :: 0 <= i < j < |all| && test(all[i]) && test(all[j])
  }

  lemma {:induction false} FilterEmpty(all: seq<Membership>, test: Membership -> bool)
    ensures Filter(all, test) == [] <==> forall i :: 0 <= i < |all| ==> !test(all[i])
  {
    if all != [] {
      var front := all[..|all| - 1];
      FilterEmpty(front, test);
      assert forall i :: 0 <= i < |front| ==> front[i] == all[i];
    }
  }

  lemma {:induction false} FilterOne(all: seq<Membership>, test: Membership -> bool, m: Membership)
    ensures Filter(all, test) == [m] <==> Only(all, test, m)
  {
    if all != [] {
      var n := |all| - 1;
      var front := all[..n];
      assert forall i :: 0 <= i < n ==> front[i] == all[i];
      FilterOne(front, test, m);
      FilterEmpty(front, test);
      if test(all[n]) {
        if Only(all, test, m) {
          var i :| 0 <= i < |all| && all[i] == m && test(all[i]) && forall j :: 0 <= j < |all| && j != i ==>
            !test(all[j]);
          assert i == n;
        }
        var kept := Filter(front, test);
        assert Filter(all, test) == kept + [all[n]];
        if kept == [] && all[n] == m { assert Only(all, test, m); }
        if Filter(all, test) == [m] { assert kept == [] && [m][0] == all[n]; }
      } else {
        if Only(front, test, m) {
          var i :| 0 <= i < n && front[i] == m && test(front[i]) && forall j :: 0 <= j < n && j != i ==>
            !test(front[j]);
          assert all[i] == m && forall j :: 0 <= j < |all| && j != i ==> !test(all[j]);
        }
        if Only(all, test, m) {
          var i :| 0 <= i < |all| && all[i] == m && test(all[i]) && forall j :: 0 <= j < |all| && j != i ==>
            !test(all[j]);
          assert front[i] == m && forall j :: 0 <= j < n && j != i ==> !test(front[j]);
        }
      }
    }
  }

  lemma {:induction false} FilterSeveral(all: seq<Membership>, test: Membership -> bool)
    ensures |Filter(all, test)| > 1 <==> Several(all, test)
  {
    if all != [] {
      var n := |all| - 1;
      var front := all[..n];
      assert forall i :: 0 <= i < n ==> front[i] == all[i];
      FilterSeveral(front, test);
      FilterEmpty(front, test);
      if Several(front, test) {
        var i, j :| 0 <= i < j < n && test(front[i]) && test(front[j]);
        assert test(all[i]) && test(all[j]);
      } else if Filter(front, test) != [] && test(all[n]) {
        var i :| 0 <= i < n && test(front[i]);
        assert test(all[i]) && test(all[n]);
      }
    }
  }

  lemma {:induction false} FilterTwice(all: seq<Membership>, first: Membership -> bool, second: Membership -> bool,
      both: Membership -> bool)
    requires forall m :: both(m) <==> first(m) && second(m)
    ensures Filter(Filter(all, first), second) == Filter(all, both)
  {
    if all != [] {
      var front, last := all[..|all| - 1], all[|all| - 1];
      FilterTwice(front, first, second, both);
      var kept := Filter(front, first);
      if first(last) {
        assert Filter(all, first) == kept + [last] && (kept + [last])[..|kept|] == kept;
      } else {
        assert Filter(all, first) == kept;
      }
    }
  }

  /** Carrying an id is having one that is not empty; a scope names an alias by its own text, and
      the wildcard names none. */
  lemma MembershipTestsMean(m: Membership, scopes: seq<string>)
    ensures Carries(m) <==> exists id :: m.id == Some(id) && id != ""
    ensures Selects(scopes, m.alias) <==> "organization:" + m.alias in scopes && m.alias != "*"
  {
    var scope := "organization:" + m.alias;
    if scope in scopes { var i :| 0 <= i < |scopes| && scopes[i] == scope; }
  }

  /** A membership is selected exactly when it alone carries an id, or when several do and it
      alone among them is named by a scope. Nothing is ever picked by position. */
  lemma SelectionIsForced(all: seq<Membership>, scopes: seq<string>, m: Membership)
    ensures Selection(all, scopes) == Some(m) <==>
      || Only(all, CarryIt(), m)
      || (Several(all, CarryIt()) && Only(all, (x: Membership) => Carries(x) && Selects(scopes, x.alias), m))
  {
    var both := (x: Membership) => Carries(x) && Selects(scopes, x.alias);
    FilterOne(all, CarryIt(), m);
    FilterSeveral(all, CarryIt());
    FilterTwice(all, CarryIt(), Named(scopes), both);
    FilterOne(all, both, m);
  }

  // ---------- SQL quoting ----------

  /** `quoteIdent` with the double quote, `quoteSqlString` with the single one. */
  function Quote(quote: char, text: string): string { [quote] + ReplaceAll(text, quote, [quote, quote]) + [quote] }

  function QuoteIdent(text: string): string { Quote('"', text) }
  function QuoteSqlString(text: string): string { Quote('\'', text) }

  /** The SQL lexer inside a quoted token: a doubled quote is one quote, a lone one closes. */
  function ReadBody(quote: char, text: string): Option<(string, string)>
    decreases |text|
  {
    if text == "" then None
    else if text[0] != quote then Push(text[0], ReadBody(quote, text[1..]))
    else if |text| > 1 && text[1] == quote then Push(quote, ReadBody(quote, text[2..]))
    else Some(("", text[1..]))
  }

  function Push(c: char, read: Option<(string, string)>): Option<(string, string)> {
    if read.None? then None else Some(([c] + read.value.0, read.value.1))
  }

  function ReadQuoted(quote: char, text: string): Option<(string, string)> {
    if text == "" || text[0] != quote then None else ReadBody(quote, text[1..])
  }

  lemma ReadPlain(quote: char, c: char, rest: string)
    requires c != quote
    ensures ReadBody(quote, [c] + rest) == Push(c, ReadBody(quote, rest))
  {
    assert ([c] + rest)[1..] == rest;
  }

  lemma ReadDoubled(quote: char, rest: string)
    ensures ReadBody(quote, [quote, quote] + rest) == Push(quote, ReadBody(quote, rest))
  {
    assert ([quote, quote] + rest)[2..] == rest;
  }

  lemma ReadClosing(quote: char, rest: string)
    ensures ReadBody(quote, [quote] + rest) == Some(("", rest)) <==> rest == "" || rest[0] != quote
  {
    assert ([quote] + rest)[1..] == rest;
  }

  lemma PushReads(c: char, read: Option<(string, string)>, text: string, rest: string)
    ensures Push(c, read) == Some(([c] + text, rest)) <==> read == Some((text, rest))
  {
    if Push(c, read) == Some(([c] + text, rest)) { assert ([c] + read.value.0)[1..] == ([c] + text)[1..]; }
  }

  /** After a whole body one quote closes exactly if no other quote follows it. */
  lemma {:induction false} BodyReads(quote: char, text: string, rest: string)
    ensures ReadBody(quote, ReplaceAll(text, quote, [quote, quote]) + ([quote] + rest)) == Some((text, rest)) <==>
      rest == "" || rest[0] != quote
  {
    hide ReadBody, Push;
    var close := [quote] + rest;
    if text == "" {
      assert ReplaceAll(text, quote, [quote, quote]) + close == close;
      ReadClosing(quote, rest);
    } else {
      var c, tail := text[0], ReplaceAll(text[1..], quote, [quote, quote]);
      BodyReads(quote, text[1..], rest);
      Associate(if c == quote then [quote, quote] else [c], tail, close);
      if c == quote { ReadDoubled(quote, tail + close); } else { ReadPlain(quote, c, tail + close); }
      PushReads(c, ReadBody(quote, tail + close), text[1..], rest);
      assert text == [c] + text[1..];
    }
  }

  /** Reading a quoted text before anything gives back exactly the text and that rest, if and
      only if the rest does not open with the quote. */
  lemma QuotedReadsBack(quote: char, text: string, rest: string)
    ensures ReadQuoted(quote, Quote(quote, text) + rest) == Some((text, rest)) <==> rest == "" || rest[0] != quote
  {
    var whole := Quote(quote, text) + rest;
    assert whole[1..] == ReplaceAll(text, quote, [quote, quote]) + ([quote] + rest);
    BodyReads(quote, text, rest);
  }

  /** Different texts are quoted differently. */
  lemma QuotesSeparate(quote: char, a: string, b: string)
    ensures Quote(quote, a) == Quote(quote, b) <==> a == b
  {
    QuotedReadsBack(quote, a, "");
    QuotedReadsBack(quote, b, "");
    assert Quote(quote, a) + "" == Quote(quote, a) && Quote(quote, b) + "" == Quote(quote, b);
  }
}
