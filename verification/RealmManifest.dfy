/** The Git-owned realm manifest: field names, values, the per-kind schemas and
    the validation that runs before any request is sent. */
module RealmManifest {
  import opened Options
  import opened JsText

  /** JSON values. `Opaque` stands for objects and for arrays that hold anything but strings. */
  datatype Value =
    | Null | Bool(flag: bool) | Num(number: int) | Str(text: Text) | Arr(items: seq<Text>) | Opaque(json: Text)

  datatype Field =
    | Id | RealmName | ClientId | Name | Description | Protocol | Enabled
    | PublicClient | StandardFlowEnabled | ImplicitFlowEnabled | DirectAccessGrantsEnabled
    | ServiceAccountsEnabled | FullScopeAllowed | ConsentRequired | RedirectUris | WebOrigins
    | RegistrationAllowed | RegistrationEmailAsUsername | RememberMe | VerifyEmail | ResetPasswordAllowed
    | LoginWithEmailAllowed | DuplicateEmailsAllowed | BruteForceProtected | OrganizationsEnabled
    | SslRequired | AccessTokenLifespan | SsoSessionIdleTimeout | SsoSessionMaxLifespan
    | ClientRole | RegistrationAccessToken | Unmanaged(key: Text)

  /** One REST representation: the fields an object shows or a body supplies. */
  type Rep = map<Field, Value>

  function Get(rep: Rep, f: Field): Option<Value> {
    if f in rep then Some(rep[f]) else None
  }

  datatype Kind = ClientScope | RealmRole | Client

  function IdentityField(kind: Kind): Field {
    if kind == Client then ClientId else Name
  }

  // ---------- field checks ----------

  datatype Check = IsBool | IsText | IsName | IsDuration | IsProtocol | IsSsl | IsUris | IsOrigins

  /** The URL parser's verdicts: an http(s) URL without credentials, query or
      fragment, and a URL that equals its own origin. */
  datatype UrlRules = UrlRules(plainUrl: Text -> bool, ownOrigin: Text -> bool)

  predicate Letter(c: CodeUnit) { 65 <= c <= 90 || 97 <= c <= 122 }

  predicate Digit(c: CodeUnit) { 48 <= c <= 57 }

  predicate PlainText(t: Text) {
    |t| <= 1024 && forall i :: 0 <= i < |t| ==> t[i] > 31 && t[i] != 127
  }

  predicate ManagedName(t: Text) {
    && 1 <= |t| <= 128
    && (Letter(t[0]) || Digit(t[0]))
    && forall i :: 0 <= i < |t| ==> Letter(t[i]) || Digit(t[i]) || t[i] in {95, 46, 58, 45}
  }

  function Lower(t: Text): Text {
    seq(|t|, i requires 0 <= i < |t| => if 65 <= t[i] <= 90 then t[i] + 32 else t[i])
  }

  predicate ManagedRealmName(t: Text) {
    ManagedName(t) && 58 !in t && Lower(t) != Ascii("master")
  }

  predicate UuidShaped(t: Text) {
    |t| == 36 && forall i :: 0 <= i < 36 ==>
      if i in {8, 13, 18, 23} then t[i] == 45 else Digit(t[i]) || 97 <= t[i] <= 102
  }

  /** Names that runtime provisioning owns; a manifest may not adopt them. */
  predicate RuntimeName(t: Text) {
    var l := Lower(t);
    || Ascii("mcp-resource:") <= l
    || Ascii("organization:") <= l
    || Ascii("org:") <= l
    || Ascii("dcr:") <= l
    || Ascii("dcr_") <= l
    || Ascii("dcr-") <= l
    || UuidShaped(l)
  }

  predicate Distinct(items: seq<Text>) {
    forall i, j :: 0 <= i < j < |items| ==> items[i] != items[j]
  }

  predicate Uris(items: seq<Text>, url: UrlRules) {
    && |items| <= 100
    && (forall i :: 0 <= i < |items| ==> PlainText(items[i]) && url.plainUrl(items[i]))
    && Distinct(items)
  }

  predicate Accepts(check: Check, v: Value, url: UrlRules) {
    match check
    case IsBool => v.Bool?
    case IsText => v.Str? && PlainText(v.text)
    case IsName => v.Str? && ManagedName(v.text)
    case IsDuration => v.Num? && 0 <= v.number <= 2_147_483_647
    case IsProtocol => v == Str(Ascii("openid-connect"))
    case IsSsl => v in {Str(Ascii("all")), Str(Ascii("external")), Str(Ascii("none"))}
    case IsUris => v.Arr? && Uris(v.items, url)
    case IsOrigins =>
      v.Arr? && Uris(v.items, url) && forall i :: 0 <= i < |v.items| ==> url.ownOrigin(v.items[i])
  }

  function SettingsCheck(f: Field): Option<Check> {
    match f
    case Enabled | RegistrationAllowed | RegistrationEmailAsUsername | RememberMe | VerifyEmail
       | ResetPasswordAllowed | LoginWithEmailAllowed | DuplicateEmailsAllowed | BruteForceProtected
       | OrganizationsEnabled => Some(IsBool)
    case SslRequired => Some(IsSsl)
    case AccessTokenLifespan | SsoSessionIdleTimeout | SsoSessionMaxLifespan => Some(IsDuration)
    case _ => None
  }

  function EntryCheck(kind: Kind, f: Field): Option<Check> {
    match kind
    case ClientScope =>
      (match f
       case Name => Some(IsName)
       case Description => Some(IsText)
       case Protocol => Some(IsProtocol)
       case _ => None)
    case RealmRole =>
      (match f case Name => Some(IsName) case Description => Some(IsText) case _ => None)
    case Client =>
      (match f
       case ClientId => Some(IsName)
       case Name | Description => Some(IsText)
       case Protocol => Some(IsProtocol)
       case Enabled | PublicClient | StandardFlowEnabled | ImplicitFlowEnabled | DirectAccessGrantsEnabled
          | ServiceAccountsEnabled | FullScopeAllowed | ConsentRequired => Some(IsBool)
       case RedirectUris => Some(IsUris)
       case WebOrigins => Some(IsOrigins)
       case _ => None)
  }

  // ---------- manifests ----------

  datatype Part = VersionPart | RealmPart | SettingsPart | ClientsPart | ClientScopesPart | RealmRolesPart
    | UnknownPart(key: Text)

  /** `parts` are the members in the order of their enumeration; the value of an absent member
      plays no role. */
  datatype Manifest = Manifest(parts: seq<Part>, version: Value, realm: Value, settings: Rep,
    clients: seq<Rep>, clientScopes: seq<Rep>, realmRoles: seq<Rep>)

  predicate ValidSettings(rep: Rep, url: UrlRules) {
    forall f :: f in rep ==> SettingsCheck(f).Some? && Accepts(SettingsCheck(f).value, rep[f], url)
  }

  predicate ValidFields(kind: Kind, rep: Rep, url: UrlRules) {
    && (forall f :: f in rep ==> EntryCheck(kind, f).Some? && Accepts(EntryCheck(kind, f).value, rep[f], url))
    && IdentityField(kind) in rep
  }

  predicate PublicServiceAccount(rep: Rep) {
    Get(rep, PublicClient) == Some(Bool(true)) && Get(rep, ServiceAccountsEnabled) == Some(Bool(true))
  }

  /** The identity text of an entry; empty where it has none. */
  function EntryName(kind: Kind, rep: Rep): Text {
    var id := Get(rep, IdentityField(kind));
    if id.Some? && id.value.Str? then id.value.text else []
  }

  predicate ValidEntry(kind: Kind, rep: Rep, url: UrlRules) {
    && ValidFields(kind, rep, url)
    && !RuntimeName(EntryName(kind, rep))
    && !PublicServiceAccount(rep)
  }

  ghost predicate ValidCollection(kind: Kind, items: seq<Rep>, url: UrlRules) {
    && |items| <= 1000
    && (forall i :: 0 <= i < |items| ==> ValidEntry(kind, items[i], url))
    && forall i, j :: 0 <= i < j < |items| ==> EntryName(kind, items[i]) != EntryName(kind, items[j])
  }

  /** Every member is known and none is missing. */
  predicate Complete(parts: seq<Part>) {
    && (forall i :: 0 <= i < |parts| ==> !parts[i].UnknownPart?)
    && VersionPart in parts && RealmPart in parts && SettingsPart in parts
    && ClientsPart in parts && ClientScopesPart in parts && RealmRolesPart in parts
  }

  ghost predicate ValidManifest(m: Manifest, url: UrlRules) {
    && Complete(m.parts)
    && m.version == Num(1)
    && m.realm.Str? && ManagedRealmName(m.realm.text)
    && ValidSettings(m.settings, url)
    && ValidCollection(Client, m.clients, url)
    && ValidCollection(ClientScope, m.clientScopes, url)
    && ValidCollection(RealmRole, m.realmRoles, url)
  }

  datatype Verdict = Valid | InvalidManifest | RuntimeNamespaceForbidden

  /** The first entry at fault is well-formed and uses a name of the runtime. */
  ghost predicate StopsAtRuntimeName(kind: Kind, items: seq<Rep>, i: int, url: UrlRules) {
    && 0 <= i < |items| && ValidCollection(kind, items[..i], url)
    && ValidFields(kind, items[i], url) && RuntimeName(EntryName(kind, items[i]))
  }

  ghost predicate ForbiddenCollection(kind: Kind, items: seq<Rep>, url: UrlRules) {
    |items| <= 1000 && exists i :: StopsAtRuntimeName(kind, items, i, url)
  }

  /** One collection, entry by entry; the first offending entry decides the error. */
  method ValidateCollection(kind: Kind, items: seq<Rep>, url: UrlRules) returns (v: Verdict)
    ensures v == Valid <==> ValidCollection(kind, items, url)
    ensures v == RuntimeNamespaceForbidden <==> ForbiddenCollection(kind, items, url)
  {
    hide ValidFields, RuntimeName, PublicServiceAccount, EntryName, ValidCollection;
    if |items| > 1000 {
      SmallIfValid(kind, items, url);
      return InvalidManifest;
    }
    NothingValid(kind, items[..0], url);
    var names: set<Text> := {};
    for k := 0 to |items|
      invariant ValidCollection(kind, items[..k], url)
      invariant forall n :: n in names ==> exists i :: 0 <= i < k && EntryName(kind, items[i]) == n
      invariant forall i :: 0 <= i < k ==> EntryName(kind, items[i]) in names
    {
      var name := EntryName(kind, items[k]);
      var fields := ValidFields(kind, items[k], url);
      FaultIsFirst(kind, items, k, url);
      NextEntry(kind, items, k, url);
      if !fields { return InvalidManifest; }
      if RuntimeName(name) {
        assert StopsAtRuntimeName(kind, items, k, url);
        return RuntimeNamespaceForbidden;
      }
      if name in names { return InvalidManifest; }
      names := names + {name};
      if PublicServiceAccount(items[k]) { return InvalidManifest; }
    }
    assert items[..|items|] == items;
    FaultIsFirst(kind, items, |items|, url);
    return Valid;
  }

  /** What comes before the first fault is in order, and a collection up to and with it is not. */
  lemma FaultIsFirst(kind: Kind, items: seq<Rep>, k: nat, url: UrlRules)
    requires k <= |items| && ValidCollection(kind, items[..k], url)
    ensures forall i :: StopsAtRuntimeName(kind, items, i, url) ==> i >= k
    ensures k < |items| && !ValidCollection(kind, items[..k + 1], url) ==>
      !ValidCollection(kind, items, url) && forall i :: StopsAtRuntimeName(kind, items, i, url) ==> i == k
  {
    hide ValidFields, RuntimeName, PublicServiceAccount, EntryName;
    forall i | 0 <= i < k ensures !RuntimeName(EntryName(kind, items[i])) {
      assert items[..k][i] == items[i];
    }
    if k < |items| && !ValidCollection(kind, items[..k + 1], url) {
      forall i | k < i <= |items| ensures !ValidCollection(kind, items[..i], url) {
        assert items[..i][..k + 1] == items[..k + 1];
        ValidPrefix(kind, items[..i], k + 1, url);
      }
      assert items[..|items|] == items;
    }
  }

  lemma SmallIfValid(kind: Kind, items: seq<Rep>, url: UrlRules)
    ensures ValidCollection(kind, items, url) ==> |items| <= 1000
  {
  }

  lemma NothingValid(kind: Kind, items: seq<Rep>, url: UrlRules)
    requires items == []
    ensures ValidCollection(kind, items, url)
  {
  }

  lemma NextEntry(kind: Kind, items: seq<Rep>, k: nat, url: UrlRules)
    requires k < |items| <= 1000 && ValidCollection(kind, items[..k], url)
    ensures ValidCollection(kind, items[..k + 1], url) <==>
      && ValidEntry(kind, items[k], url)
      && forall i :: 0 <= i < k ==> EntryName(kind, items[i]) != EntryName(kind, items[k])
  {
    hide ValidEntry, EntryName;
    var next := items[..k + 1];
    assert next[..k] == items[..k] && next[k] == items[k];
    forall i | 0 <= i < k ensures next[i] == items[..k][i] {
    }
  }

  lemma ValidPrefix(kind: Kind, items: seq<Rep>, k: nat, url: UrlRules)
    requires k <= |items|
    ensures ValidCollection(kind, items, url) ==> ValidCollection(kind, items[..k], url)
  {
    hide ValidEntry, EntryName;
  }

  ghost predicate ValidPart(m: Manifest, p: Part, url: UrlRules) {
    match p
    case VersionPart => m.version == Num(1)
    case RealmPart => m.realm.Str? && ManagedRealmName(m.realm.text)
    case SettingsPart => ValidSettings(m.settings, url)
    case ClientsPart => ValidCollection(Client, m.clients, url)
    case ClientScopesPart => ValidCollection(ClientScope, m.clientScopes, url)
    case RealmRolesPart => ValidCollection(RealmRole, m.realmRoles, url)
    case UnknownPart(_) => false
  }

  ghost predicate ForbiddenPart(m: Manifest, p: Part, url: UrlRules) {
    match p
    case ClientsPart => ForbiddenCollection(Client, m.clients, url)
    case ClientScopesPart => ForbiddenCollection(ClientScope, m.clientScopes, url)
    case RealmRolesPart => ForbiddenCollection(RealmRole, m.realmRoles, url)
    case _ => false
  }

  method ValidatePart(m: Manifest, p: Part, url: UrlRules) returns (v: Verdict)
    ensures v == Valid <==> ValidPart(m, p, url)
    ensures v == RuntimeNamespaceForbidden <==> ForbiddenPart(m, p, url)
  {
    hide ValidCollection, ForbiddenCollection, ManagedRealmName, ValidSettings;
    match p {
      case VersionPart => v := if m.version == Num(1) then Valid else InvalidManifest;
      case RealmPart => v := if m.realm.Str? && ManagedRealmName(m.realm.text) then Valid else InvalidManifest;
      case SettingsPart =>
        var ok := ValidSettings(m.settings, url);
        v := if ok then Valid else InvalidManifest;
      case ClientsPart => v := ValidateCollection(Client, m.clients, url);
      case ClientScopesPart => v := ValidateCollection(ClientScope, m.clientScopes, url);
      case RealmRolesPart => v := ValidateCollection(RealmRole, m.realmRoles, url);
      case UnknownPart(_) => v := InvalidManifest;
    }
  }

  /** The whole manifest, member by member: accepted exactly when it is valid, and
      refused for a name of the runtime exactly when the first faulty member is at fault so. */
  method ValidateManifest(m: Manifest, url: UrlRules) returns (v: Verdict)
    ensures v == Valid <==> ValidManifest(m, url)
    ensures v == RuntimeNamespaceForbidden <==>
      exists i :: 0 <= i < |m.parts| && ForbiddenPart(m, m.parts[i], url)
        && forall j :: 0 <= j < i ==> ValidPart(m, m.parts[j], url)
  {
    hide ValidPart, ForbiddenPart;
    CompleteIsValid(m, url);
    for i := 0 to |m.parts|
      invariant forall j :: 0 <= j < i ==> ValidPart(m, m.parts[j], url)
      invariant forall j :: 0 <= j < i ==> !ForbiddenPart(m, m.parts[j], url)
    {
      v := ValidatePart(m, m.parts[i], url);
      if v != Valid { return; }
    }
    v := if Complete(m.parts) then Valid else InvalidManifest;
  }

  lemma CompleteIsValid(m: Manifest, url: UrlRules)
    ensures ValidManifest(m, url) <==>
      Complete(m.parts) && forall i :: 0 <= i < |m.parts| ==> ValidPart(m, m.parts[i], url)
  {
    hide ValidCollection, ManagedRealmName, ValidSettings;
  }

  // ---------- managed objects, whatever their kind ----------

  /** One named object the manifest owns and the fields it supplies for it. */
  datatype Item = Item(kind: Kind, name: Text, desired: Rep)

  /** What validation leaves to rely on: the body carries the item's own
      identity and only schema fields, each with a comparable value. */
  ghost predicate ItemOk(it: Item) {
    && Get(it.desired, IdentityField(it.kind)) == Some(Str(it.name))
    && !PublicServiceAccount(it.desired)
    && (forall f :: f in it.desired ==> EntryCheck(it.kind, f).Some? && Comparable(it.desired[f]))
    && (Protocol in it.desired ==> it.desired[Protocol] == Str(Ascii("openid-connect")))
    && (PublicClient in it.desired ==> it.desired[PublicClient].Bool?)
    && (ServiceAccountsEnabled in it.desired ==> it.desired[ServiceAccountsEnabled].Bool?)
  }

  /** The values `equal` can find equal to themselves. */
  predicate Comparable(v: Value) {
    !v.Opaque? && !v.Null?
  }

  ghost predicate ItemsOk(items: seq<Item>) {
    && (forall i :: 0 <= i < |items| ==> ItemOk(items[i]))
    && forall i, j :: 0 <= i < j < |items| ==> items[i].kind != items[j].kind || items[i].name != items[j].name
  }

  function ItemOf(kind: Kind, rep: Rep): Item {
    Item(kind, EntryName(kind, rep), rep)
  }

  function ItemsOf(kind: Kind, reps: seq<Rep>): seq<Item> {
    seq(|reps|, i requires 0 <= i < |reps| => ItemOf(kind, reps[i]))
  }

  /** Planning order: client scopes, realm roles, clients. */
  function Items(m: Manifest): seq<Item> {
    ItemsOf(ClientScope, m.clientScopes) + ItemsOf(RealmRole, m.realmRoles) + ItemsOf(Client, m.clients)
  }

  lemma EntryItem(kind: Kind, rep: Rep, url: UrlRules)
    requires ValidEntry(kind, rep, url)
    ensures ItemOk(ItemOf(kind, rep))
  {
    hide RuntimeName, ManagedName, Uris;
    var it := ItemOf(kind, rep);
    forall f | f in it.desired ensures EntryCheck(it.kind, f).Some? && Comparable(it.desired[f]) {
      assert Accepts(EntryCheck(kind, f).value, rep[f], url);
    }
  }

  lemma CollectionItems(kind: Kind, reps: seq<Rep>, url: UrlRules)
    requires ValidCollection(kind, reps, url)
    ensures ItemsOk(ItemsOf(kind, reps))
  {
    hide ValidEntry, ItemOk;
    forall i | 0 <= i < |reps| ensures ItemOk(ItemOf(kind, reps[i])) {
      EntryItem(kind, reps[i], url);
    }
  }

  /** A valid manifest names every (kind, name) once and supplies only owned fields. */
  lemma ValidManifestItems(m: Manifest, url: UrlRules)
    requires ValidManifest(m, url)
    ensures ItemsOk(Items(m))
  {
    hide ItemOk, ValidEntry, ValidSettings;
    CollectionItems(ClientScope, m.clientScopes, url);
    CollectionItems(RealmRole, m.realmRoles, url);
    CollectionItems(Client, m.clients, url);
  }
}
