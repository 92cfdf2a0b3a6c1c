/** Which field values a manifest may hold, told field by field and character by character. */
module ManifestFields {
  import opened JsText
  import opened Options
  import opened RealmManifest

  // ---------- texts ----------

  predicate Between(c: CodeUnit, low: int, high: int) { low <= c <= high }

  predicate Alphanumeric(c: CodeUnit) {
    Between(c, 0x30, 0x39) || Between(c, 0x41, 0x5A) || Between(c, 0x61, 0x7A)
  }

  /** At most 1024 code units, none of them a control character. */
  predicate Printable(t: Text) {
    |t| <= 1024 && forall c :: c in t ==> !Between(c, 0, 0x1F) && c != 0x7F
  }

  /** A letter or digit, then up to 127 letters, digits and `_.:-`. */
  predicate Named(t: Text) {
    t != [] && |t[1..]| <= 127 && Alphanumeric(t[0])
      && forall c :: c in t[1..] ==> Alphanumeric(c) || c in {0x5F, 0x2E, 0x3A, 0x2D}
  }

  lemma PlainTextMeans(t: Text)
    ensures PlainText(t) <==> Printable(t)
  {
    assert forall i :: 0 <= i < |t| ==> t[i] in t;
  }

  lemma ManagedNameMeans(t: Text)
    ensures ManagedName(t) <==> Named(t)
  {
    if t != [] {
      assert forall i :: 1 <= i < |t| ==> t[i] == t[1..][i - 1] && t[i] in t[1..];
      forall c | c in t[1..] ensures exists i :: 1 <= i < |t| && t[i] == c {
        var i :| 0 <= i < |t[1..]| && t[1..][i] == c;
        assert t[i + 1] == c;
      }
    }
  }

  /** A realm is named so too, without a colon, and is not the master realm. */
  lemma RealmNameMeans(t: Text)
    ensures ManagedRealmName(t) <==>
      && Named(t) && 0x3A !in t
      && !(|t| == 6 && forall i :: 0 <= i < 6 ==> t[i] in {"master"[i] as int, "MASTER"[i] as int})
  {
    ManagedNameMeans(t);
    hide ManagedName, Named;
    if |t| == 6 { MasterMeans(t); }
  }

  lemma MasterMeans(t: Text)
    requires |t| == 6
    ensures Lower(t) == Ascii("master") <==>
      forall i :: 0 <= i < 6 ==> t[i] in {"master"[i] as int, "MASTER"[i] as int}
  {
    var small, large := "master", "MASTER";
    assert forall i :: 0 <= i < 6 ==> large[i] as int == small[i] as int - 32 && 97 <= small[i] as int <= 122;
    assert forall i :: 0 <= i < 6 ==> Ascii(small)[i] == small[i] as int;
    if Lower(t) == Ascii(small) {
      forall i | 0 <= i < 6 ensures t[i] in {small[i] as int, large[i] as int} {
        assert Lower(t)[i] == small[i] as int;
      }
    }
    if forall i :: 0 <= i < 6 ==> t[i] in {small[i] as int, large[i] as int} {
      assert forall i :: 0 <= i < 6 ==> Lower(t)[i] == Ascii(small)[i];
    }
  }

  // ---------- values ----------

  /** At most a hundred different texts the URL parser takes. */
  predicate UriList(v: Value, url: UrlRules) {
    && v.Arr? && |v.items| <= 100 && (forall t :: t in v.items ==> Printable(t) && url.plainUrl(t))
    && forall i, j :: 0 <= i < |v.items| && 0 <= j < |v.items| && v.items[i] == v.items[j] ==> i == j
  }

  lemma UrisMean(v: Value, url: UrlRules)
    ensures Accepts(IsUris, v, url) <==> UriList(v, url)
    ensures Accepts(IsOrigins, v, url) <==> UriList(v, url) && forall t :: t in v.items ==> url.ownOrigin(t)
  {
    if v.Arr? {
      forall t: Text ensures PlainText(t) <==> Printable(t) { PlainTextMeans(t); }
      hide PlainText, Printable;
      assert forall i :: 0 <= i < |v.items| ==> v.items[i] in v.items;
    }
  }

  predicate SettingValue(f: Field, v: Value) {
    || (f == SslRequired && v in {Str(Ascii("all")), Str(Ascii("external")), Str(Ascii("none"))})
    || (f in {AccessTokenLifespan, SsoSessionIdleTimeout, SsoSessionMaxLifespan}
        && v.Num? && 0 <= v.number < 0x8000_0000)
    || (v in {Bool(true), Bool(false)} && f in {Enabled, RegistrationAllowed, RegistrationEmailAsUsername,
        RememberMe, VerifyEmail, ResetPasswordAllowed, LoginWithEmailAllowed, DuplicateEmailsAllowed,
        BruteForceProtected, OrganizationsEnabled})
  }

  lemma SettingValueMeans(f: Field, v: Value, url: UrlRules)
    ensures SettingsCheck(f).Some? && Accepts(SettingsCheck(f).value, v, url) <==> SettingValue(f, v)
  {
    hide PlainText, ManagedName, Ascii, Uris;
  }

  /** The settings a manifest may hold: flags, three lifespans in seconds, and the SSL mode. */
  lemma SettingsMean(rep: Rep, url: UrlRules)
    ensures ValidSettings(rep, url) <==> forall f :: f in rep ==> SettingValue(f, rep[f])
  {
    hide SettingsCheck, Accepts, SettingValue;
    forall f | f in rep
      ensures SettingsCheck(f).Some? && Accepts(SettingsCheck(f).value, rep[f], url) <==> SettingValue(f, rep[f])
    {
      SettingValueMeans(f, rep[f], url);
    }
  }

  predicate TextValue(v: Value) { v.Str? && Printable(v.text) }

  predicate NameValue(v: Value) { v.Str? && Named(v.text) }

  lemma TextsMean(v: Value, url: UrlRules)
    ensures Accepts(IsText, v, url) <==> TextValue(v)
    ensures Accepts(IsName, v, url) <==> NameValue(v)
  {
    if v.Str? {
      PlainTextMeans(v.text);
      ManagedNameMeans(v.text);
    }
  }

  predicate ScopeValue(f: Field, v: Value) {
    || (f == Name && NameValue(v)) || (f == Description && TextValue(v))
    || (f == Protocol && v == Str(Ascii("openid-connect")))
  }

  predicate RoleValue(f: Field, v: Value) { (f == Name && NameValue(v)) || (f == Description && TextValue(v)) }

  lemma ObjectValuesMean(f: Field, v: Value, url: UrlRules)
    ensures EntryCheck(ClientScope, f).Some? && Accepts(EntryCheck(ClientScope, f).value, v, url) <==> ScopeValue(f, v)
    ensures EntryCheck(RealmRole, f).Some? && Accepts(EntryCheck(RealmRole, f).value, v, url) <==> RoleValue(f, v)
  {
    hide PlainText, ManagedName, Printable, Named, Ascii, Uris, TextValue, NameValue;
    TextsMean(v, url);
  }

  /** A client scope has a name, and may have a description and the one protocol; a realm role has
      a name and may have a description. */
  lemma ObjectFieldsMean(rep: Rep, url: UrlRules)
    ensures ValidFields(ClientScope, rep, url) <==> Name in rep && forall f :: f in rep ==> ScopeValue(f, rep[f])
    ensures ValidFields(RealmRole, rep, url) <==> Name in rep && forall f :: f in rep ==> RoleValue(f, rep[f])
  {
    hide Accepts, EntryCheck, ScopeValue, RoleValue;
    forall f | f in rep
      ensures EntryCheck(ClientScope, f).Some? && Accepts(EntryCheck(ClientScope, f).value, rep[f], url)
        <==> ScopeValue(f, rep[f])
      ensures EntryCheck(RealmRole, f).Some? && Accepts(EntryCheck(RealmRole, f).value, rep[f], url)
        <==> RoleValue(f, rep[f])
    {
      ObjectValuesMean(f, rep[f], url);
    }
  }

  predicate ClientValue(f: Field, v: Value, url: UrlRules) {
    || (f == ClientId && NameValue(v)) || (f in {Name, Description} && TextValue(v))
    || (f == Protocol && v == Str(Ascii("openid-connect")))
    || (v in {Bool(true), Bool(false)} && f in {Enabled, PublicClient, StandardFlowEnabled, ImplicitFlowEnabled,
        DirectAccessGrantsEnabled, ServiceAccountsEnabled, FullScopeAllowed, ConsentRequired})
    || (f == RedirectUris && UriList(v, url))
    || (f == WebOrigins && UriList(v, url) && forall t :: t in v.items ==> url.ownOrigin(t))
  }

  lemma ClientValueMeans(f: Field, v: Value, url: UrlRules)
    ensures EntryCheck(Client, f).Some? && Accepts(EntryCheck(Client, f).value, v, url) <==> ClientValue(f, v, url)
  {
    hide PlainText, ManagedName, Printable, Named, Ascii, Uris, UriList, TextValue, NameValue;
    TextsMean(v, url);
    UrisMean(v, url);
  }

  /** A client has an id, and may have texts, the one protocol, flags and its two lists of addresses. */
  lemma ClientFieldsMean(rep: Rep, url: UrlRules)
    ensures ValidFields(Client, rep, url) <==> ClientId in rep && forall f :: f in rep ==> ClientValue(f, rep[f], url)
  {
    hide ClientValue, Accepts, EntryCheck;
    forall f | f in rep
      ensures EntryCheck(Client, f).Some? && Accepts(EntryCheck(Client, f).value, rep[f], url)
        <==> ClientValue(f, rep[f], url)
    {
      ClientValueMeans(f, rep[f], url);
    }
  }

  lemma ExampleNames()
    ensures Named(Ascii("acme")) && Named(Ascii("editor")) && !RuntimeName(Ascii("editor"))
    ensures ManagedRealmName(Ascii("acme"))
  {
    RealmNameMeans(Ascii("acme"));
    assert Lower(Ascii("editor"))[0] == 101;
    assert Ascii("mcp-resource:")[0] == 109 && Ascii("organization:")[0] == Ascii("org:")[0] == 111;
    assert Ascii("dcr:")[0] == Ascii("dcr_")[0] == Ascii("dcr-")[0] == 100;
  }

  /** The six members in order, a realm and one role: such a manifest is valid. */
  lemma SmallManifestIsValid(m: Manifest, url: UrlRules)
    requires m.parts == [VersionPart, RealmPart, SettingsPart, ClientsPart, ClientScopesPart, RealmRolesPart]
    requires m.version == Num(1) && m.realm == Str(Ascii("acme")) && m.settings == map[]
    requires m.clients == m.clientScopes == [] && m.realmRoles == [map[Name := Str(Ascii("editor"))]]
    ensures ValidManifest(m, url)
  {
    hide Ascii, RuntimeName, ManagedRealmName, Named, ValidFields;
    ExampleNames();
    ObjectFieldsMean(m.realmRoles[0], url);
    SettingsMean(m.settings, url);
    var parts := m.parts;
    assert parts[0] == VersionPart && parts[1] == RealmPart && parts[2] == SettingsPart && parts[3] == ClientsPart;
    assert parts[4] == ClientScopesPart && parts[5] == RealmRolesPart;
    assert EntryName(RealmRole, m.realmRoles[0]) == Ascii("editor");
  }
}
