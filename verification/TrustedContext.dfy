/** The signed identity bundle one service hands another in request headers. */
module TrustedContext {
  import opened Options
  import opened JsWhitespace
  import opened Decimals
  import opened Delimited
  import opened Sequences

  /** Header names compare without case; `Other` is every header outside the bundle. */
  datatype Name = TenantId | UserId | Roles | Groups | PrincipalKind | Timestamp | Signature | Other(text: string)

  const TRUSTED_CONTEXT_HEADERS := [TenantId, UserId, Roles, Groups, PrincipalKind, Timestamp, Signature]
  const TRUSTED_CONTEXT_MAX_AGE_MS := 5 * 60 * 1000
  const TRUSTED_CONTEXT_MAX_CLOCK_SKEW_MS := 30 * 1000

  type Values = map<Name, string>
  datatype Identity = Identity(tenantId: Option<string>, userId: Option<string>, roles: seq<string>,
    groups: seq<string>, kind: Option<string>)

  class Headers {
    var values: Values

    constructor (values: Values)
      ensures this.values == values
    {
      this.values := values;
    }

    method Delete(name: Name)
      modifies this
      ensures values == old(values) - {name}
    {
      values := values - {name};
    }

    method Set(name: Name, text: string)
      modifies this
      ensures values == old(values)[name := text]
    {
      values := values[name := text];
    }
  }

  function Get(values: Values, name: Name): Option<string> { if name in values then Some(values[name]) else None }

  // ---------- delimited lists ----------

  function Normal(entries: seq<string>): seq<string> {
    if entries == [] then [] else
    var entry := Trim(entries[0]);
    (if entry == "" then [] else [entry]) + Normal(entries[1..])
  }

  function SplitDelimited(raw: Option<string>): seq<string> {
    if raw.None? || raw.value == "" then [] else Normal(Split(raw.value, ','))
  }

  function JoinDelimited(entries: seq<string>): string { Join(Normal(entries), ',') }

  predicate Clean(entry: string) { entry != "" && Trimmed(entry) }

  predicate AllClean(entries: seq<string>) { forall i :: 0 <= i < |entries| ==> Clean(entries[i]) }

  lemma {:induction false} NormalIsClean(entries: seq<string>)
    ensures AllClean(Normal(entries))
    ensures AllFree(entries, ',') ==> AllFree(Normal(entries), ',')
  {
    if entries != [] {
      NormalIsClean(entries[1..]);
      assert AllFree(entries, ',') ==> Free(entries[0], ',') && AllFree(entries[1..], ',');
    }
  }

  lemma {:induction false} CleanIsNormal(entries: seq<string>)
    requires AllClean(entries)
    ensures Normal(entries) == entries
  {
    if entries != [] {
      CleanIsNormal(entries[1..]);
      assert Clean(entries[0]);
    }
  }

  lemma {:induction false} JoinEmpty(entries: seq<string>, separator: char)
    requires AllClean(entries)
    ensures Join(entries, separator) == "" <==> entries == []
  {
    if entries != [] { assert Clean(entries[0]); }
  }

  /** An entry is trimmed, and dropped if it is blank. */
  lemma NormalOne(entry: string)
    ensures Normal([entry]) == if Blank(entry) then [] else [Trim(entry)]
  {
    NormalCons(entry, []);
    assert [entry] + [] == [entry];
  }

  /** A list is normalised entry by entry, in order. */
  lemma {:induction false} NormalSplits(a: seq<string>, b: seq<string>)
    ensures Normal(a + b) == Normal(a) + Normal(b)
  {
    hide Normal, Trim;
    if a == [] {
      assert a + b == b;
      NothingNormal();
      assert [] + Normal(b) == Normal(b);
    } else {
      NormalSplits(a[1..], b);
      NormalCons(a[0], a[1..]);
      NormalCons(a[0], a[1..] + b);
      assert a == [a[0]] + a[1..] && a + b == [a[0]] + (a[1..] + b);
    }
  }

  /** Joining then splitting normalises a list of comma-free entries. */
  lemma SplitJoinDelimited(entries: seq<string>)
    requires AllFree(entries, ',')
    ensures SplitDelimited(Some(JoinDelimited(entries))) == Normal(entries)
  {
    var normal := Normal(entries);
    NormalIsClean(entries);
    JoinEmpty(normal, ',');
    if normal != [] {
      SplitJoined(normal, ',');
      CleanIsNormal(normal);
    }
  }

  /** The joined text survives being split and joined again. */
  predicate Stable(entries: seq<string>) {
    JoinDelimited(SplitDelimited(Some(JoinDelimited(entries)))) == JoinDelimited(entries)
  }

  lemma NormalCons(head: string, rest: seq<string>)
    ensures Normal([head] + rest) == (if Trim(head) == "" then [] else [Trim(head)]) + Normal(rest)
  {
    assert ([head] + rest)[1..] == rest;
  }

  lemma {:induction false} NormalShrinks(pieces: seq<string>)
    requires pieces != []
    ensures |JoinDelimited(pieces)| <= |Join(pieces, ',')|
    ensures |JoinDelimited(pieces)| == |Join(pieces, ',')| ==> AllClean(pieces) || pieces == [""]
  {
    hide Join, Normal, Trim;
    var head, rest := pieces[0], pieces[1..];
    assert pieces == [head] + rest;
    NormalCons(head, rest);
    JoinCons(head, rest, ',');
    TrimShrinks(head);
    if rest == [] {
      NothingNormal();
      if Trim(head) != "" { assert [Trim(head)] + [] == [Trim(head)]; JoinCons(Trim(head), [], ','); }
    } else {
      NormalShrinks(rest);
      if Trim(head) != "" {
        JoinCons(Trim(head), Normal(rest), ',');
        if rest == [""] {
          assert rest == [""] + [];
          NormalCons("", []);
          NothingNormal();
          TrimShrinks("");
        }
      } else {
        assert [] + Normal(rest) == Normal(rest);
      }
    }
  }

  lemma NothingNormal()
    ensures Normal([]) == [] && Join([], ',') == ""
  {
  }

  lemma TrimShrinks(text: string)
    ensures |Trim(text)| <= |text|
    ensures |Trim(text)| == |text| && text != "" ==> Clean(text) && Trim(text) == text
    ensures Trim("") == ""
  {
    if |Trim(text)| == |text| { TrimKeepsAll(text); }
  }

  lemma TrimKeepsAll(text: string)
    requires |Trim(text)| == |text|
    ensures Trim(text) == text && Trimmed(text)
  {
    assert TrimStart(text) == text[|text| - |TrimStart(text)|..];
  }

  /** Exactly when no piece between commas is empty or padded. */
  lemma StableIff(entries: seq<string>)
    ensures Stable(entries) <==> JoinDelimited(entries) == "" || AllClean(Split(JoinDelimited(entries), ','))
  {
    var text := JoinDelimited(entries);
    if text != "" {
      var pieces := Split(text, ',');
      CleanAgain(pieces);
      if AllClean(pieces) { CleanIsNormal(pieces); } else { NormalShrinks(pieces); }
    }
  }

  lemma CleanAgain(entries: seq<string>)
    ensures Normal(Normal(entries)) == Normal(entries)
  {
    NormalIsClean(entries);
    CleanIsNormal(Normal(entries));
  }

  lemma CommaFreeIsStable(entries: seq<string>)
    requires AllFree(entries, ',')
    ensures Stable(entries)
  {
    SplitJoinDelimited(entries);
    CleanAgain(entries);
  }

  // ---------- payloads ----------

  datatype Version = V3 | V2
  const ACCEPTED_PAYLOAD_VERSIONS := [V3, V2]
  function VersionText(v: Version): string { if v == V3 then "v3" else "v2" }

  /** The signed fields as text; an absent identity or class is the empty text. */
  datatype Fields = Fields(timestamp: string, tenantId: string, userId: string, roles: string, groups: string,
    kind: string)

  function Parts(v: Version, f: Fields): seq<string> {
    var parts := [VersionText(v), f.timestamp, f.tenantId, f.userId, f.roles, f.groups];
    if v == V3 then parts + [f.kind] else parts
  }

  function PayloadString(v: Version, f: Fields): string { Join(Parts(v, f), '\n') }

  /** No payload of one version is ever a payload of the other, newlines or not. */
  lemma VersionsNeverCoincide(f: Fields, g: Fields)
    ensures PayloadString(V2, f) != PayloadString(V3, g)
  {
    assert PayloadString(V2, f)[1] == '2' && PayloadString(V3, g)[1] == '3';
  }

  /** None of the fields a version signs holds a newline. */
  predicate NewlineFree(v: Version, f: Fields) { AllFree(Parts(v, f), '\n') }

  /** The fields a version signs agree; v2 signs no principal class. */
  predicate SameSigned(v: Version, f: Fields, g: Fields) { f == if v == V3 then g else g.(kind := f.kind) }

  lemma PartsAgree(v: Version, f: Fields, g: Fields)
    ensures Parts(v, f) == Parts(v, g) <==> SameSigned(v, f, g)
  {
    var a, b := Parts(v, f), Parts(v, g);
    if a == b {
      assert a[1] == b[1] && a[2] == b[2] && a[3] == b[3] && a[4] == b[4] && a[5] == b[5];
      if v == V3 { assert a[6] == b[6]; }
    }
  }

  /** Whatever else is compared with it, a newline-free bundle is told apart by its payload. */
  lemma PayloadSeparates(v: Version, f: Fields, g: Fields)
    requires NewlineFree(v, f)
    ensures PayloadString(v, f) == PayloadString(v, g) <==> SameSigned(v, f, g)
  {
    hide Parts, SameSigned, Join;
    PartsAgree(v, f, g);
    PartsCount(v, f, g);
    if PayloadString(v, f) == PayloadString(v, g) { FreePartsAreDetermined(Parts(v, f), Parts(v, g), '\n'); }
  }

  lemma PartsCount(v: Version, f: Fields, g: Fields)
    ensures |Parts(v, f)| == |Parts(v, g)| == if v == V3 then 7 else 6
    ensures Parts(v, f)[0] == Parts(v, g)[0] && Free(Parts(v, f)[0], '\n')
  {
  }

  function FromParts(v: Version, parts: seq<string>): Fields
    requires |parts| == if v == V3 then 7 else 6
  {
    Fields(parts[1], parts[2], parts[3], parts[4], parts[5], if v == V3 then parts[6] else "")
  }

  lemma FromPartsHasParts(v: Version, parts: seq<string>)
    requires (|parts| == if v == V3 then 7 else 6) && parts[0] == VersionText(v)
    ensures Parts(v, FromParts(v, parts)) == parts
  {
  }

  /** The signed fields are recoverable from a payload exactly when none of them holds a newline:
      otherwise a newline moved to a neighbouring field gives another bundle with that payload. */
  lemma PayloadDeterminesFieldsIff(v: Version, f: Fields)
    ensures NewlineFree(v, f) <==> forall g :: PayloadString(v, g) == PayloadString(v, f) ==> SameSigned(v, f, g)
  {
    hide SameSigned, Join, Shifted;
    if NewlineFree(v, f) {
      forall g | PayloadString(v, g) == PayloadString(v, f) ensures SameSigned(v, f, g) { PayloadSeparates(v, f, g); }
    } else {
      var parts := Parts(v, f);
      PartsCount(v, f, f);
      var i :| 0 <= i < |parts| && !Free(parts[i], '\n');
      ShiftedIsOther(parts, i, '\n');
      var g := FromParts(v, Shifted(parts, i, '\n'));
      FromPartsHasParts(v, Shifted(parts, i, '\n'));
      PartsAgree(v, f, g);
      assert PayloadString(v, g) == PayloadString(v, f) && !SameSigned(v, f, g);
    }
  }

  /** With a newline inside a field two different bundles have one payload. */
  lemma NewlinesCollide(timestamp: string, kind: string)
    ensures PayloadString(V3, Fields(timestamp, "a\nb", "", "", "c", kind))
      == PayloadString(V3, Fields(timestamp, "a", "b\n", "", "c", kind))
  {
    hide PayloadString;
    var f, g := Fields(timestamp, "a\nb", "", "", "c", kind), Fields(timestamp, "a", "b\n", "", "c", kind);
    PayloadShape(f);
    PayloadShape(g);
    var tail := NEWLINE + ListShape(f);
    Regroup(f.tenantId, NEWLINE, f.userId, tail);
    Regroup(g.tenantId, NEWLINE, g.userId, tail);
    assert f.tenantId + NEWLINE + f.userId == g.tenantId + NEWLINE + g.userId;
  }

  lemma Regroup(a: string, b: string, c: string, d: string)
    ensures a + (b + (c + d)) == (a + b + c) + d
  {
  }

  const NEWLINE := ['\n']

  /** A v3 payload, field after field. */
  lemma PayloadShape(f: Fields)
    ensures PayloadString(V3, f)
      == "v3" + (NEWLINE + (f.timestamp + (NEWLINE + (f.tenantId + (NEWLINE + (f.userId + (NEWLINE + ListShape(f))))))))
  {
    hide Join;
    var t5 := [f.groups] + ([f.kind] + []);
    var t4 := [f.roles] + t5;
    var t3 := [f.userId] + t4;
    var t2 := [f.tenantId] + t3;
    var t1 := [f.timestamp] + t2;
    JoinCons("v3", t1, '\n');
    JoinCons(f.timestamp, t2, '\n');
    JoinCons(f.tenantId, t3, '\n');
    JoinCons(f.userId, t4, '\n');
    JoinCons(f.roles, t5, '\n');
    JoinCons(f.groups, [f.kind] + [], '\n');
    JoinCons(f.kind, [], '\n');
    assert Parts(V3, f) == ["v3"] + t1;
  }

  function ListShape(f: Fields): string { f.roles + (NEWLINE + (f.groups + (NEWLINE + f.kind))) }

  // ---------- signatures ----------

  type Signer = (string, string) -> string

  function HexDigit(c: char): Option<nat> {
    if '0' <= c <= '9' then Some(c as int - '0' as int)
    else if 'a' <= c <= 'f' then Some(c as int - 'a' as int + 10)
    else if 'A' <= c <= 'F' then Some(c as int - 'A' as int + 10)
    else None
  }

  /** `Buffer.from(text, "hex")`: whole bytes up to the first character that is not hex. */
  function HexBytes(text: string): seq<nat> {
    if |text| < 2 || HexDigit(text[0]).None? || HexDigit(text[1]).None? then []
    else [16 * HexDigit(text[0]).value + HexDigit(text[1]).value] + HexBytes(text[2..])
  }

  const HEX_DIGITS := "0123456789abcdef"

  lemma HexDigitReads(n: nat)
    requires n < 16
    ensures HexDigit(HEX_DIGITS[n]) == Some(n)
  {
  }

  /** A byte in hex, before any text, reads as that byte and then the text's. */
  lemma ByteReads(byte: nat, rest: string)
    requires byte < 256
    ensures HexBytes([HEX_DIGITS[byte / 16], HEX_DIGITS[byte % 16]] + rest) == [byte] + HexBytes(rest)
  {
    hide HexDigit;
    HexDigitReads(byte / 16);
    HexDigitReads(byte % 16);
    var text := [HEX_DIGITS[byte / 16], HEX_DIGITS[byte % 16]] + rest;
    assert text[2..] == rest && 16 * (byte / 16) + byte % 16 == byte;
  }

  /** `a` to `f` in upper case. */
  function Raised(text: string): string {
    seq(|text|, i requires 0 <= i < |text| =>
      if 'a' <= text[i] <= 'f' then (text[i] as int - 32) as char else text[i])
  }

  /** Letter case does not matter to the bytes a signature stands for. */
  lemma {:induction false} HexIgnoresCase(text: string)
    ensures HexBytes(Raised(text)) == HexBytes(text)
    decreases |text|
  {
    if |text| >= 2 {
      HexIgnoresCase(text[2..]);
      assert Raised(text)[2..] == Raised(text[2..]);
    }
  }

  /** A signature tells secrets and payloads apart. */
  ghost predicate Ideal(sign: Signer) {
    && (forall s, p :: HexBytes(sign(s, p)) != [])
    && (forall s, p, s', p' :: HexBytes(sign(s, p)) == HexBytes(sign(s', p')) ==> s == s' && p == p')
  }

  predicate SignaturesMatch(left: string, right: string) { HexBytes(left) == HexBytes(right) != [] }

  // ---------- signing ----------

  function OrNull(text: Option<string>): Option<string> {
    if text.None? || Trim(text.value) == "" then None else Some(Trim(text.value))
  }

  function OrEmpty(text: Option<string>): string { if text.None? then "" else text.value }

  function ReadPrincipalKind(raw: Option<string>): Option<string> {
    if raw == Some("person") || raw == Some("service") then raw else None
  }

  function Put(values: Values, name: Name, text: string): Values { if text == "" then values else values[name := text] }

  function FieldsOf(timestamp: string, id: Identity): Fields {
    Fields(timestamp, OrEmpty(id.tenantId), OrEmpty(id.userId), JoinDelimited(id.roles), JoinDelimited(id.groups),
      OrEmpty(id.kind))
  }

  function Prepared(id: Identity): Identity {
    id.(tenantId := OrNull(id.tenantId), userId := OrNull(id.userId), kind := ReadPrincipalKind(id.kind))
  }

  /** Without any inbound copy of the bundle's headers */
  function Cleared(values: Values): Values { map n | n in values && n.Other? :: values[n] }

  /** The headers a producer leaves: every inbound copy replaced. */
  function Applied(values: Values, id: Identity, secret: Option<string>, nowMs: int, sign: Signer): Values {
    var ready := Prepared(id);
    var f := FieldsOf(PrintInt(nowMs), ready);
    var unsigned := Put(Put(Put(Put(Put(Cleared(values),
      TenantId, f.tenantId), UserId, f.userId), Roles, f.roles), Groups, f.groups), PrincipalKind, f.kind);
    if OrEmpty(secret) == "" || ready.tenantId.None? then unsigned
    else unsigned[Timestamp := f.timestamp][Signature := sign(secret.value, PayloadString(V3, f))]
  }

  method ClearHeaders(headers: Headers)
    modifies headers
    ensures headers.values == Cleared(old(headers.values))
  {
    for i := 0 to |TRUSTED_CONTEXT_HEADERS|
      invariant forall n :: n in headers.values <==> n in old(headers.values) && n !in TRUSTED_CONTEXT_HEADERS[..i]
      invariant forall n :: n in headers.values ==> headers.values[n] == old(headers.values)[n]
    {
      headers.Delete(TRUSTED_CONTEXT_HEADERS[i]);
    }
    assert TRUSTED_CONTEXT_HEADERS[..|TRUSTED_CONTEXT_HEADERS|] == TRUSTED_CONTEXT_HEADERS;
    forall n: Name ensures n in TRUSTED_CONTEXT_HEADERS <==> !n.Other? { Listed(n); }
  }

  lemma Listed(n: Name)
    ensures n in TRUSTED_CONTEXT_HEADERS <==> !n.Other?
  {
    var all := TRUSTED_CONTEXT_HEADERS;
    assert all[0] == TenantId && all[1] == UserId && all[2] == Roles && all[3] == Groups && all[4] == PrincipalKind
      && all[5] == Timestamp && all[6] == Signature;
  }

  /** The text of a header that is present exactly when the text is not empty. */
  function Present(text: string): Option<string> { if text == "" then None else Some(text) }

  /** A value is taken for an identity once white space around it is gone. */
  function Named(text: Option<string>): Option<string> {
    if text.None? || Blank(text.value) then None else Some(Trim(text.value))
  }

  /** Every header of the bundle is what the identity, the secret and the clock make it, whatever
      came in; every other header is as it came in. Timestamp and signature are there only with
      a secret and a tenant. */
  method ApplyTrustedContextHeaders(headers: Headers, id: Identity, secret: Option<string>, nowMs: int, sign: Signer)
    modifies headers
    ensures headers.values == Applied(old(headers.values), id, secret, nowMs, sign)
    ensures forall n: Name | n.Other? :: Get(headers.values, n) == Get(old(headers.values), n)
    ensures Get(headers.values, TenantId) == Named(id.tenantId) && Get(headers.values, UserId) == Named(id.userId)
    ensures Get(headers.values, Roles) == Present(JoinDelimited(id.roles))
    ensures Get(headers.values, Groups) == Present(JoinDelimited(id.groups))
    ensures Get(headers.values, PrincipalKind) == if id.kind in {Some("person"), Some("service")} then id.kind else None
    ensures var signed := secret.Some? && secret.value != "" && Named(id.tenantId).Some?;
      && Get(headers.values, Timestamp) == (if signed then Some(PrintInt(nowMs)) else None)
      && Get(headers.values, Signature) == if !signed then None else
        Some(sign(secret.value, PayloadString(V3, SentFields(headers.values, nowMs))))
  {
    hide Normal, JoinDelimited, Trim, PrintInt, PayloadString, Join, Cleared, Named, SentFields, Present, Blank;
    AppliedHeaders(headers.values, id, secret, nowMs, sign);
    ClearHeaders(headers);
    var tenantId, userId := OrNull(id.tenantId), OrNull(id.userId);
    var roles, groups := JoinDelimited(id.roles), JoinDelimited(id.groups);
    var kind := ReadPrincipalKind(id.kind);
    if tenantId.Some? { headers.Set(TenantId, tenantId.value); }
    if userId.Some? { headers.Set(UserId, userId.value); }
    if roles != "" { headers.Set(Roles, roles); }
    if groups != "" { headers.Set(Groups, groups); }
    if kind.Some? { headers.Set(PrincipalKind, kind.value); }
    if secret.None? || secret.value == "" || tenantId.None? { return; }
    var timestamp := PrintInt(nowMs);
    headers.Set(Timestamp, timestamp);
    headers.Set(Signature, sign(secret.value, PayloadString(V3,
      Fields(timestamp, OrEmpty(tenantId), OrEmpty(userId), roles, groups, OrEmpty(kind)))));
  }

  /** The signed fields, as the headers beside the signature show them. */
  function SentFields(values: Values, nowMs: int): Fields {
    Fields(PrintInt(nowMs), OrEmpty(Get(values, TenantId)), OrEmpty(Get(values, UserId)), OrEmpty(Get(values, Roles)),
      OrEmpty(Get(values, Groups)), OrEmpty(Get(values, PrincipalKind)))
  }

  lemma AppliedHeaders(values: Values, id: Identity, secret: Option<string>, nowMs: int, sign: Signer)
    ensures var h := Applied(values, id, secret, nowMs, sign);
      && (forall n: Name | n.Other? :: Get(h, n) == Get(values, n))
      && Get(h, TenantId) == Named(id.tenantId) && Get(h, UserId) == Named(id.userId)
      && Get(h, Roles) == Present(JoinDelimited(id.roles)) && Get(h, Groups) == Present(JoinDelimited(id.groups))
      && Get(h, PrincipalKind) == (if id.kind in {Some("person"), Some("service")} then id.kind else None)
      && var signed := secret.Some? && secret.value != "" && Named(id.tenantId).Some?;
      && Get(h, Timestamp) == (if signed then Some(PrintInt(nowMs)) else None)
      && Get(h, Signature) == if !signed then None else
        Some(sign(secret.value, PayloadString(V3, SentFields(h, nowMs))))
  {
    hide PrintInt, PayloadString, JoinDelimited, Trim, Applied, Blank;
    AppliedHolds(values, id, secret, nowMs, sign);
    AppliedRest(values, id, secret, nowMs, sign);
  }

  lemma AppliedRest(values: Values, id: Identity, secret: Option<string>, nowMs: int, sign: Signer)
    ensures var h := Applied(values, id, secret, nowMs, sign);
      && (forall n: Name | n.Other? :: Get(h, n) == Get(values, n))
      && var signed := OrEmpty(secret) != "" && Prepared(id).tenantId.Some?;
      && Get(h, Timestamp) == (if signed then Some(PrintInt(nowMs)) else None)
      && Get(h, Signature) == if !signed then None else
        Some(sign(secret.value, PayloadString(V3, FieldsOf(PrintInt(nowMs), Prepared(id)))))
  {
    hide PrintInt, PayloadString, JoinDelimited, Prepared;
  }

  lemma AppliedHolds(values: Values, id: Identity, secret: Option<string>, nowMs: int, sign: Signer)
    ensures var h, f := Applied(values, id, secret, nowMs, sign), FieldsOf(PrintInt(nowMs), Prepared(id));
      && Get(h, TenantId) == Present(f.tenantId) && Get(h, UserId) == Present(f.userId)
        && Get(h, Roles) == Present(f.roles)
      && Get(h, Groups) == Present(f.groups) && Get(h, PrincipalKind) == Present(f.kind)
  {
    hide FieldsOf, Prepared, PrintInt, PayloadString;
  }

  /** No bundle header of a request survives: what goes out does not depend on what came in. */
  lemma InboundIsIgnored(values: Values, other: Values, id: Identity, secret: Option<string>, nowMs: int, sign: Signer,
      n: Name)
    requires !n.Other?
    ensures Get(Applied(values, id, secret, nowMs, sign), n) == Get(Applied(other, id, secret, nowMs, sign), n)
  {
    hide Applied, PrintInt, PayloadString, JoinDelimited, Trim, Named;
    AppliedHeaders(values, id, secret, nowMs, sign);
    AppliedHeaders(other, id, secret, nowMs, sign);
  }

  // ---------- verifying ----------

  datatype Verified = Verified(identity: Identity, version: Version)

  function ReadIdentityHeaders(values: Values): Identity {
    Identity(Get(values, TenantId), Get(values, UserId), SplitDelimited(Get(values, Roles)),
      SplitDelimited(Get(values, Groups)),
      ReadPrincipalKind(Get(values, PrincipalKind)))
  }

  predicate Fresh(timestamp: string, nowMs: int) {
    var parsed := ParseInt(TrimStart(timestamp));
    parsed.Some? && -TRUSTED_CONTEXT_MAX_CLOCK_SKEW_MS <= nowMs - parsed.value <= TRUSTED_CONTEXT_MAX_AGE_MS
  }

  predicate Dated(values: Values, secret: Option<string>, nowMs: int) {
    && OrEmpty(secret) != ""
    && OrEmpty(Get(values, Timestamp)) != "" && OrEmpty(Get(values, Signature)) != ""
    && Fresh(values[Timestamp], nowMs)
  }

  /** The bundle a set of headers proves, newest accepted version first. */
  function Verify(values: Values, secret: Option<string>, nowMs: int, sign: Signer): Option<Verified> {
    if !Dated(values, secret, nowMs) then None else
    var id := ReadIdentityHeaders(values);
    var f := FieldsOf(values[Timestamp], id);
    if SignaturesMatch(values[Signature], sign(secret.value, PayloadString(V3, f))) then Some(Verified(id, V3))
    else if SignaturesMatch(values[Signature], sign(secret.value, PayloadString(V2, f)))
      then Some(Verified(id.(kind := None), V2))
    else None
  }

  method VerifyBundle(headers: Headers, id: Identity, secret: Option<string>, nowMs: int, sign: Signer)
    returns (r: Option<Verified>)
    requires id == ReadIdentityHeaders(headers.values)
    ensures r == Verify(headers.values, secret, nowMs, sign)
  {
    hide HexBytes, Join, PayloadString, ParseInt, Normal, JoinDelimited, TrimStart, Split, SplitDelimited,
      ReadIdentityHeaders;
    if secret.None? || secret.value == "" { return None; }
    var timestamp, signature := Get(headers.values, Timestamp), Get(headers.values, Signature);
    if timestamp.None? || timestamp.value == "" || signature.None? || signature.value == "" { return None; }
    var parsed := ParseInt(TrimStart(timestamp.value));
    if parsed.None? { return None; }
    var ageMs := nowMs - parsed.value;
    if ageMs > TRUSTED_CONTEXT_MAX_AGE_MS { return None; }
    if ageMs < -TRUSTED_CONTEXT_MAX_CLOCK_SKEW_MS { return None; }
    var f := FieldsOf(timestamp.value, id);
    for i := 0 to |ACCEPTED_PAYLOAD_VERSIONS|
      invariant i > 0 ==> !SignaturesMatch(signature.value, sign(secret.value, PayloadString(V3, f)))
      invariant i > 1 ==> !SignaturesMatch(signature.value, sign(secret.value, PayloadString(V2, f)))
    {
      var version := ACCEPTED_PAYLOAD_VERSIONS[i];
      if SignaturesMatch(signature.value, sign(secret.value, PayloadString(version, f))) {
        return Some(Verified(if version == V3 then id else id.(kind := None), version));
      }
    }
    r := None;
  }

  // ---------- the round trip ----------

  /** What an identity is once it has travelled. */
  function Received(id: Identity): Identity {
    Identity(OrNull(id.tenantId), OrNull(id.userId), SplitDelimited(Some(JoinDelimited(id.roles))),
      SplitDelimited(Some(JoinDelimited(id.groups))), ReadPrincipalKind(id.kind))
  }

  lemma AppliedReads(values: Values, id: Identity, secret: Option<string>, nowMs: int, sign: Signer)
    ensures ReadIdentityHeaders(Applied(values, id, secret, nowMs, sign)) == Received(id)
  {
    hide Normal, JoinDelimited, Trim, PrintInt, PayloadString, Split, Applied, Get;
    AppliedHolds(values, id, secret, nowMs, sign);
  }

  lemma TimestampReads(nowMs: int)
    ensures TrimStart(PrintInt(nowMs)) == PrintInt(nowMs) && PrintInt(nowMs) != ""
      && ParseInt(PrintInt(nowMs)) == Some(nowMs)
  {
    ParsesPrinted(nowMs, "");
    assert PrintInt(nowMs) + "" == PrintInt(nowMs);
    assert !IsSpace(PrintInt(nowMs)[0]);
  }

  lemma NotEmpty(sign: Signer, secret: string, payload: string)
    requires Ideal(sign)
    ensures sign(secret, payload) != ""
  {
    assert HexBytes(sign(secret, payload)) != [];
  }

  lemma MatchesItself(sign: Signer, secret: string, other: string, a: string, b: string)
    requires Ideal(sign)
    ensures SignaturesMatch(sign(secret, a), sign(other, b)) <==> secret == other && a == b
  {
    assert HexBytes(sign(secret, a)) != [];
  }

  /** Headers a producer signed in v3, read by a verifier that sees the lists possibly shortened. */
  lemma VerifySigned(values: Values, secret: string, other: string, signedAt: int, readAt: int, sign: Signer,
      sent: Fields)
    requires Ideal(sign) && other != ""
    requires Get(values, Timestamp) == Some(PrintInt(signedAt))
      && Get(values, Signature) == Some(sign(secret, PayloadString(V3, sent)))
    requires var read := FieldsOf(PrintInt(signedAt), ReadIdentityHeaders(values));
      sent == read.(roles := sent.roles, groups := sent.groups) && |read.roles| <= |sent.roles|
        && |read.groups| <= |sent.groups|
    ensures var r := Verify(values, Some(other), readAt, sign);
      && (r.Some? <==>
            (&& secret == other && -30000 <= readAt - signedAt <= 300000
             && sent == FieldsOf(PrintInt(signedAt), ReadIdentityHeaders(values))))
      && (r.Some? ==> r.value == Verified(ReadIdentityHeaders(values), V3))
  {
    hide HexBytes, Ideal, PayloadString, PrintInt, ParseInt, TrimStart, ReadIdentityHeaders, FieldsOf;
    var read := FieldsOf(PrintInt(signedAt), ReadIdentityHeaders(values));
    TimestampReads(signedAt);
    NotEmpty(sign, secret, PayloadString(V3, sent));
    MatchesItself(sign, secret, other, PayloadString(V3, sent), PayloadString(V3, read));
    MatchesItself(sign, secret, other, PayloadString(V3, sent), PayloadString(V2, read));
    VersionsNeverCoincide(read, sent);
    SamePayload(sent, read);
  }

  /** A bundle signed at one time verifies at another, under the same secret, exactly when it
      names a tenant, the clock is inside the window and its lists survive the header form. */
  lemma SignedRoundTrip(values: Values, id: Identity, secret: string, other: string, signedAt: int, readAt: int,
      sign: Signer)
    requires Ideal(sign) && secret != "" && other != ""
    ensures var r := Verify(Applied(values, id, Some(secret), signedAt, sign), Some(other), readAt, sign);
      && (r.Some? <==>
            (&& secret == other && OrNull(id.tenantId).Some? && -30000 <= readAt - signedAt <= 300000
             && Stable(id.roles) && Stable(id.groups)))
      && (r.Some? ==> r.value == Verified(Received(id), V3))
  {
    hide Ideal, JoinDelimited, SplitDelimited, PrintInt, ParseInt, TrimStart, Trim, PayloadString, ReadIdentityHeaders;
    var headers := Applied(values, id, Some(secret), signedAt, sign);
    AppliedReads(values, id, Some(secret), signedAt, sign);
    TravelledIsShorter(id.roles);
    TravelledIsShorter(id.groups);
    AppliedRest(values, id, Some(secret), signedAt, sign);
    if OrNull(id.tenantId).Some? {
      var sent := FieldsOf(PrintInt(signedAt), Prepared(id));
      VerifySigned(headers, secret, other, signedAt, readAt, sign, sent);
    }
  }

  /** Lists that only got shorter leave the payload alone exactly when they did not change. */
  lemma SamePayload(f: Fields, g: Fields)
    requires f == g.(roles := f.roles, groups := f.groups) && |g.roles| <= |f.roles| && |g.groups| <= |f.groups|
    ensures PayloadString(V3, f) == PayloadString(V3, g) <==> f == g
  {
    hide PayloadString, ListShape;
    PayloadShape(f);
    PayloadShape(g);
    if PayloadString(V3, f) == PayloadString(V3, g) {
      var f1, g1 := NEWLINE + ListShape(f), NEWLINE + ListShape(g);
      var f3, g3 := NEWLINE + (f.userId + f1), NEWLINE + (g.userId + g1);
      var f5, g5 := NEWLINE + (f.tenantId + f3), NEWLINE + (g.tenantId + g3);
      SameTail("v3", NEWLINE + (f.timestamp + f5), NEWLINE + (g.timestamp + g5));
      SameTail(NEWLINE, f.timestamp + f5, g.timestamp + g5);
      SameTail(f.timestamp, f5, g5);
      SameTail(NEWLINE, f.tenantId + f3, g.tenantId + g3);
      SameTail(f.tenantId, f3, g3);
      SameTail(NEWLINE, f.userId + f1, g.userId + g1);
      SameTail(f.userId, f1, g1);
      SameTail(NEWLINE, ListShape(f), ListShape(g));
      SameLists(f, g);
    }
  }

  lemma SameLists(f: Fields, g: Fields)
    requires f.kind == g.kind && |g.roles| <= |f.roles| && |g.groups| <= |f.groups| && ListShape(f) == ListShape(g)
    ensures f.roles == g.roles && f.groups == g.groups
  {
    assert |f.roles| == |g.roles| && |f.groups| == |g.groups|;
    assert ListShape(f)[..|f.roles|] == f.roles && ListShape(g)[..|f.roles|] == g.roles;
    var x, y := f.groups + (NEWLINE + f.kind), g.groups + (NEWLINE + g.kind);
    SameTail(f.roles, NEWLINE + x, NEWLINE + y);
    SameTail(NEWLINE, x, y);
    assert x[..|f.groups|] == f.groups && y[..|f.groups|] == g.groups;
  }

  lemma SameTail(head: string, a: string, b: string)
    ensures head + a == head + b ==> a == b
  {
    assert (head + a)[|head|..] == a && (head + b)[|head|..] == b;
  }

  lemma TravelledIsShorter(entries: seq<string>)
    ensures |JoinDelimited(SplitDelimited(Some(JoinDelimited(entries))))| <= |JoinDelimited(entries)|
  {
    var text := JoinDelimited(entries);
    if text != "" {
      CleanAgain(Split(text, ','));
      NormalShrinks(Split(text, ','));
    }
  }

  /** Comma-free roles and groups always survive, and come back trimmed, the blank ones dropped. */
  lemma CommaFreeRoundTrip(values: Values, id: Identity, secret: string, signedAt: int, readAt: int, sign: Signer)
    requires Ideal(sign) && secret != "" && AllFree(id.roles, ',') && AllFree(id.groups, ',')
    ensures var r := Verify(Applied(values, id, Some(secret), signedAt, sign), Some(secret), readAt, sign);
      && (r.Some? <==> OrNull(id.tenantId).Some? && -30000 <= readAt - signedAt <= 300000)
      && (r.Some? ==> r.value == Verified(Prepared(id).(roles := Normal(id.roles), groups := Normal(id.groups)), V3))
  {
    hide Verify, Applied, Ideal;
    SignedRoundTrip(values, id, secret, secret, signedAt, readAt, sign);
    CommaFreeIsStable(id.roles);
    CommaFreeIsStable(id.groups);
    SplitJoinDelimited(id.roles);
    SplitJoinDelimited(id.groups);
  }

  /** Whatever headers carry a producer's signature: what they prove is what was signed, in the
      version that was signed, and a v2 signature never yields a principal class. */
  lemma SignatureBindsFields(values: Values, secret: string, nowMs: int, sign: Signer, version: Version, signed: Fields)
    requires Ideal(sign) && Signature in values && values[Signature] == sign(secret, PayloadString(version, signed))
    requires Verify(values, Some(secret), nowMs, sign).Some?
    requires NewlineFree(version, signed)
    ensures var r := Verify(values, Some(secret), nowMs, sign).value;
      && r.version == version
      && FieldsOf(values[Timestamp], r.identity) == signed.(kind := if version == V3 then signed.kind else "")
      && (version == V2 ==> r.identity.kind == None)
  {
    hide HexBytes, Ideal, Join, SplitDelimited, JoinDelimited, PayloadString, NewlineFree, Fresh, SameText;
    var read := FieldsOf(values[Timestamp], ReadIdentityHeaders(values));
    MatchesItself(sign, secret, secret, PayloadString(version, signed), PayloadString(V3, read));
    MatchesItself(sign, secret, secret, PayloadString(version, signed), PayloadString(V2, read));
    VersionsNeverCoincide(signed, read);
    VersionsNeverCoincide(read, signed);
    PayloadSeparates(version, signed, read);
  }

  /** Headers signed in the older version still verify inside the window, as the identity they
      show but for its principal class, which that version did not sign. */
  lemma OlderBundlesVerify(values: Values, secret: string, signedAt: int, readAt: int, sign: Signer)
    requires Ideal(sign) && secret != "" && Get(values, Timestamp) == Some(PrintInt(signedAt))
    requires Get(values, Signature)
      == Some(sign(secret, PayloadString(V2, FieldsOf(PrintInt(signedAt), ReadIdentityHeaders(values)))))
    ensures Verify(values, Some(secret), readAt, sign) ==
      if -30000 <= readAt - signedAt <= 300000
      then Some(Verified(ReadIdentityHeaders(values).(kind := None), V2)) else None
  {
    hide HexBytes, Ideal, PayloadString, PrintInt, ParseInt, TrimStart, ReadIdentityHeaders, FieldsOf;
    var f := FieldsOf(PrintInt(signedAt), ReadIdentityHeaders(values));
    TimestampReads(signedAt);
    NotEmpty(sign, secret, PayloadString(V2, f));
    MatchesItself(sign, secret, secret, PayloadString(V2, f), PayloadString(V3, f));
    MatchesItself(sign, secret, secret, PayloadString(V2, f), PayloadString(V2, f));
    VersionsNeverCoincide(f, f);
  }

  // ---------- ideal signatures exist ----------

  function Unary(n: nat): seq<nat> { if n == 0 then [0] else [1] + Unary(n - 1) }

  /** A text as bytes no other text's bytes begin with. */
  function Code(text: string): seq<nat> { if text == "" then [2] else Unary(text[0] as int) + Code(text[1..]) }

  function HexOf(bytes: seq<nat>): string {
    if bytes == [] then ""
    else ['0', if bytes[0] == 0 then '0' else if bytes[0] == 1 then '1' else '2'] + HexOf(bytes[1..])
  }

  lemma {:induction false} UnarySplits(n: nat, m: nat, x: seq<nat>, y: seq<nat>)
    requires Unary(n) + x == Unary(m) + y
    ensures n == m && x == y
  {
    var a, b := Unary(n) + x, Unary(m) + y;
    assert a[0] == b[0];
    if n == 0 {
      assert a[1..] == x && b[1..] == y;
    } else {
      assert a[1..] == Unary(n - 1) + x && b[1..] == Unary(m - 1) + y;
      UnarySplits(n - 1, m - 1, x, y);
    }
  }

  lemma {:induction false} CodeSplits(a: string, b: string, x: seq<nat>, y: seq<nat>)
    requires Code(a) + x == Code(b) + y
    ensures a == b && x == y
  {
    var l, r := Code(a) + x, Code(b) + y;
    assert l[0] == r[0];
    if a == "" {
      assert l[1..] == x && r[1..] == y;
    } else {
      Associate(Unary(a[0] as int), Code(a[1..]), x);
      Associate(Unary(b[0] as int), Code(b[1..]), y);
      UnarySplits(a[0] as int, b[0] as int, Code(a[1..]) + x, Code(b[1..]) + y);
      CodeSplits(a[1..], b[1..], x, y);
      assert a == [a[0]] + a[1..] && b == [b[0]] + b[1..];
    }
  }

  predicate Small(bytes: seq<nat>) { forall i :: 0 <= i < |bytes| ==> bytes[i] < 3 }

  lemma HexStep(digit: char, rest: string)
    requires digit in "012"
    ensures HexBytes(['0', digit] + rest) == [digit as int - '0' as int] + HexBytes(rest)
  {
    assert (['0', digit] + rest)[2..] == rest;
  }

  lemma {:induction false} HexReads(bytes: seq<nat>)
    requires Small(bytes)
    ensures HexBytes(HexOf(bytes)) == bytes
  {
    if bytes != [] {
      hide HexBytes;
      HexReads(bytes[1..]);
      HexStep(if bytes[0] == 0 then '0' else if bytes[0] == 1 then '1' else '2', HexOf(bytes[1..]));
      assert bytes == [bytes[0]] + bytes[1..];
    }
  }

  lemma {:induction false} UnaryIsSmall(n: nat)
    ensures Small(Unary(n))
  {
    if n > 0 { UnaryIsSmall(n - 1); }
  }

  lemma {:induction false} CodeIsSmall(text: string)
    ensures Small(Code(text)) && Code(text) != []
  {
    if text != "" {
      UnaryIsSmall(text[0] as int);
      CodeIsSmall(text[1..]);
    }
  }

  function Spelled(secret: string, payload: string): string { HexOf(Code(secret) + Code(payload)) }

  /** The assumption on signatures can be met. */
  lemma IdealSignaturesExist()
    ensures Ideal(Spelled)
  {
    forall s, p ensures HexBytes(Spelled(s, p)) == Code(s) + Code(p) != [] {
      CodeIsSmall(s);
      CodeIsSmall(p);
      HexReads(Code(s) + Code(p));
    }
    forall s, p, s', p' | HexBytes(Spelled(s, p)) == HexBytes(Spelled(s', p')) ensures s == s' && p == p' {
      CodeSplits(s, s', Code(p), Code(p'));
      Associate(Code(p), [], []);
      CodeSplits(p, p', [], []);
    }
  }
}
