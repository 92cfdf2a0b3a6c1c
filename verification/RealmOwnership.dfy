/** What runs leave to others: clients that were registered dynamically or speak another
    protocol, objects of runtime provisioning, the master realm. Told in field values. */
module RealmOwnership {
  import opened Options
  import opened JsText
  import opened RealmManifest
  import opened KeycloakServer
  import opened RealmPlan
  import opened RealmConvergence

  // ---------- what planning asks of an object ----------

  /** A value JavaScript takes for false, or none at all. */
  predicate Falsy(v: Option<Value>) { v in {None, Some(Null), Some(Bool(false)), Some(Num(0)), Some(Str([]))} }

  /** A text of 1 to 128 letters, digits, underscores and hyphens. */
  predicate IdText(v: Option<Value>) {
    && v.Some? && v.value.Str? && 1 <= |v.value.text| <= 128
    && forall i :: 0 <= i < |v.value.text| ==>
         var u := v.value.text[i];
         65 <= u <= 90 || 97 <= u <= 122 || 48 <= u <= 57 || u == 45 || u == 95
  }

  /** The flag will be on: supplied so, or shown so and not supplied. */
  predicate WillBeOn(it: Item, current: Option<Rep>, f: Field) {
    if f in it.desired then it.desired[f] == Bool(true)
    else current.Some? && Get(current.value, f) == Some(Bool(true))
  }

  /** A client can be planned for exactly if at most one carries its id, that one has a server id and
      no registration token, it does not end up public with a service account, and its protocol,
      if it has one and one is supplied, is that one. */
  lemma ClientPlansIff(objects: seq<Entry>, realm: Text, it: Item)
    requires ItemOk(it) && it.kind == Client
    ensures var matches := Matches(objects, Client, it.name);
      PlanItem(objects, realm, it).Some? <==>
        && |matches| <= 1
        && !(WillBeOn(it, Head(matches), PublicClient) && WillBeOn(it, Head(matches), ServiceAccountsEnabled))
        && (matches != [] ==>
              && IdText(Get(matches[0], Id)) && Falsy(Get(matches[0], RegistrationAccessToken))
              && (Protocol in it.desired ==>
                    Falsy(Get(matches[0], Protocol)) || matches[0][Protocol] == it.desired[Protocol]))
  {
    var matches := Matches(objects, Client, it.name);
    if matches != [] { IdTextIsValid(Get(matches[0], Id)); }
    assert Ascii("openid-connect") != [];
  }

  lemma IdTextIsValid(v: Option<Value>)
    ensures ValidServerId(v) <==> IdText(v)
  {
  }

  /** A client scope can be planned for exactly if at most one carries its name, and that one has
      a server id. */
  lemma ScopePlansIff(objects: seq<Entry>, realm: Text, it: Item)
    requires it.kind == ClientScope
    ensures var matches := Matches(objects, ClientScope, it.name);
      PlanItem(objects, realm, it).Some? <==> |matches| <= 1 && (matches != [] ==> IdText(Get(matches[0], Id)))
  {
    var matches := Matches(objects, ClientScope, it.name);
    if matches != [] { IdTextIsValid(Get(matches[0], Id)); }
  }

  /** A realm role can be planned for exactly if the role of its name, where there is one, is none
      of a client and has a server id. */
  lemma RolePlansIff(objects: seq<Entry>, realm: Text, it: Item)
    requires it.kind == RealmRole
    ensures var matches := Matches(objects, RealmRole, it.name);
      PlanItem(objects, realm, it).Some? <==>
        (matches != [] ==> IdText(Get(matches[0], Id)) && Get(matches[0], ClientRole) == Some(Bool(false)))
  {
    var matches := Matches(objects, RealmRole, it.name);
    if matches != [] { IdTextIsValid(Get(matches[0], Id)); }
  }

  /** What is planned: a new object where there is none, an update of one that does not show every
      supplied value, and the report names the fields that are not shown. */
  lemma PlannedMeans(subject: Subject, name: Text, desired: Rep, current: Option<Rep>, createPath: Path,
      updatePath: Path)
    requires forall f :: f in desired ==> Comparable(desired[f])
    ensures var op := Planned(subject, name, desired, current, createPath, updatePath);
      && (forall f :: f in op.change.fields <==>
            f in desired && (current.None? || f !in current.value || !SameValue(desired[f], current.value[f])))
      && op.change.subject == subject && op.change.name == name
      && (current.None? ==> op.change.action == CreateObject && op.request == Some(Request(POST, createPath, desired)))
      && (current.Some? && op.change.fields != {} ==>
            op.change.action == UpdateObject && op.request == Some(Request(PUT, updatePath, desired)))
      && (current.Some? && op.change.fields == {} ==> op.change.action == Unchanged && op.request == None)
  {
    forall f | f in desired && current.Some? && f in current.value
      ensures Equal(desired[f], current.value[f]) <==> SameValue(desired[f], current.value[f])
    {
      EqualIsSameValue(desired[f], current.value[f]);
    }
  }

  /** Where an object is written: a new one below its kind, a role under its name, and any other
      under the id the server gave it. */
  lemma PlannedWhere(objects: seq<Entry>, realm: Text, it: Item)
    requires PlanItem(objects, realm, it).Some? && PlanItem(objects, realm, it).value.request.Some?
    ensures var q, matches := PlanItem(objects, realm, it).value.request.value, Matches(objects, it.kind, it.name);
      if matches == [] then q == Request(POST, Collection(realm, it.kind), it.desired)
      else if it.kind == RealmRole then q == Request(PUT, Member(realm, RealmRole, ByName(it.name)), it.desired)
      else Id in matches[0] && q == Request(PUT, Member(realm, it.kind, ById(matches[0][Id])), it.desired)
  {
  }

  /** A realm without objects can always be planned for. */
  lemma EmptyRealmPlans(realm: Text, items: seq<Item>)
    requires ItemsOk(items)
    ensures Plannable([], realm, items) && WellFormed([])
  {
    forall i | 0 <= i < |items| ensures PlanItem([], realm, items[i]).Some? {
      assert ItemOk(items[i]);
      assert Matches([], items[i].kind, items[i].name) == [];
    }
  }

  /** A server that makes up an id each, and of a role that it is none of a client, creates properly. */
  lemma OrdinaryCreation(c: Choice, id: Text)
    requires c.scope == c.client == map[Id := Str(id)]
    requires c.role == map[Id := Str(id), ClientRole := Bool(false)] && IdText(Some(Str(id)))
    ensures Proper(c)
  {
    IdTextIsValid(Some(Str(id)));
  }

  // ---------- what a run leaves alone ----------

  /** Where one managed object cannot be planned for, no plan is carried out at all. */
  lemma BlockedRunsWriteNothing(s: State, realm: Text, settings: Rep, items: seq<Item>, run: RunLog, whole: bool,
      i: nat)
    requires realm in s && i < |items| && PlanItem(s[realm].objects, realm, items[i]).None?
    requires IsRun(s, realm, settings, items, run, whole)
    ensures run.writes == [] && !whole && AfterRun(s, run) == s
  {
    hide PlanItem;
    forall ops ensures !IsPlan(s[realm], realm, settings, items, ops) {
    }
  }

  /** An object the manifest does not name is the same after any run. */
  lemma UnnamedStays(s: State, realm: Text, settings: Rep, items: seq<Item>, run: RunLog, whole: bool, p: nat)
    requires WellFormedRealm(s, realm) && ItemsOk(items) && SettingsOk(settings)
    requires IsRun(s, realm, settings, items, run, whole) && realm in s && p < |s[realm].objects|
    requires !Managed(s[realm].objects[p], items)
    ensures Holds(AfterRun(s, run), realm, p, s[realm].objects[p])
  {
    hide IsRun, AfterRun, WellFormedRealm, ItemsOk, SettingsOk;
    RunIsFramed(s, realm, settings, items, run, whole);
    assert EntryFramed(s[realm].objects[p], AfterRun(s, run)[realm].objects[p], items);
  }

  /** The realm shows this object in this place. */
  predicate Holds(s: State, realm: Text, p: nat, e: Entry) {
    realm in s && p < |s[realm].objects| && s[realm].objects[p] == e
  }

  /** The object has been registered dynamically, or speaks a protocol the manifest would change. */
  ghost predicate ForeignClient(e: Entry, items: seq<Item>) {
    && e.kind == Client
    && ((exists t :: t != [] && Get(e.rep, RegistrationAccessToken) == Some(Str(t)))
        || exists i, t :: 0 <= i < |items| && Named(e, items[i].kind, items[i].name) && SpeaksOther(e, items[i], t))
  }

  predicate SpeaksOther(e: Entry, it: Item, t: Text) {
    t != [] && Get(e.rep, Protocol) == Some(Str(t)) && Protocol in it.desired && it.desired[Protocol] != Str(t)
  }

  /** A foreign client is the same object after every run, cut or whole; a manifest that names it
      is not carried out. */
  lemma ForeignClientsStay(s: State, realm: Text, settings: Rep, items: seq<Item>, run: RunLog, whole: bool, p: nat)
    requires WellFormedRealm(s, realm) && ItemsOk(items) && SettingsOk(settings)
    requires IsRun(s, realm, settings, items, run, whole) && realm in s && p < |s[realm].objects|
    requires ForeignClient(s[realm].objects[p], items)
    ensures Holds(AfterRun(s, run), realm, p, s[realm].objects[p])
    ensures Managed(s[realm].objects[p], items) ==> run.writes == [] && !whole
  {
    hide IsRun, AfterRun, WellFormedRealm, SettingsOk, PlanItem, ItemOk;
    var e := s[realm].objects[p];
    if Managed(e, items) {
      var i :| 0 <= i < |items| && Named(e, items[i].kind, items[i].name);
      assert forall k :: 0 <= k < |items| && Named(e, items[k].kind, items[k].name) ==> k == i;
      ForeignIsNotPlanned(s[realm].objects, realm, items, i, p);
      BlockedRunsWriteNothing(s, realm, settings, items, run, whole, i);
    } else {
      UnnamedStays(s, realm, settings, items, run, whole, p);
    }
  }

  lemma ForeignIsNotPlanned(objects: seq<Entry>, realm: Text, items: seq<Item>, i: nat, p: nat)
    requires p < |objects| && i < |items| && ItemOk(items[i]) && Named(objects[p], items[i].kind, items[i].name)
    requires forall k :: 0 <= k < |items| && Named(objects[p], items[k].kind, items[k].name) ==> k == i
    requires ForeignClient(objects[p], items)
    ensures PlanItem(objects, realm, items[i]).None?
  {
    hide PlanItem;
    ClientPlansIff(objects, realm, items[i]);
    NamedIsMatched(objects, Client, items[i].name, p);
    if |Matches(objects, Client, items[i].name)| == 1 { NamedShowsMatch(objects, Client, items[i].name); }
  }

  // ---------- what no manifest may name ----------

  /** The text starts so, in whatever case. */
  predicate Opens(t: Text, prefix: string) {
    |t| >= |prefix| && forall i :: 0 <= i < |prefix| ==> SameLetter(t[i], prefix[i])
  }

  predicate SameLetter(u: CodeUnit, c: char) { u == c as int || ('a' <= c <= 'z' && u == c as int - 32) }

  predicate HexLetter(u: CodeUnit) { 48 <= u <= 57 || 97 <= u <= 102 || 65 <= u <= 70 }

  /** Named as runtime provisioning names what it creates. */
  predicate ProvisionedName(t: Text) {
    || Opens(t, "mcp-resource:") || Opens(t, "organization:") || Opens(t, "org:")
    || Opens(t, "dcr:") || Opens(t, "dcr_") || Opens(t, "dcr-")
    || UuidInAnyCase(t)
  }

  predicate UuidInAnyCase(t: Text) {
    |t| == 36 && forall i :: 0 <= i < 36 ==> if i in {8, 13, 18, 23} then t[i] == 45 else HexLetter(t[i])
  }

  lemma OpensLowered(t: Text, prefix: string)
    requires forall i :: 0 <= i < |prefix| ==> prefix[i] as int < 128 && !('A' <= prefix[i] <= 'Z')
    ensures Ascii(prefix) <= Lower(t) <==> Opens(t, prefix)
  {
    forall i | 0 <= i < |prefix| && i < |t| ensures Ascii(prefix)[i] == Lower(t)[i] <==> SameLetter(t[i], prefix[i]) {
    }
    if |t| >= |prefix| {
      assert Lower(t)[..|prefix|] == Ascii(prefix) <==>
        forall i :: 0 <= i < |prefix| ==> Lower(t)[i] == Ascii(prefix)[i];
    }
  }

  /** The names a manifest is refused for are exactly these. */
  lemma RuntimeNameMeans(t: Text)
    ensures RuntimeName(t) <==> ProvisionedName(t)
  {
    hide Opens, Lower, UuidShaped, UuidInAnyCase;
    OpensLowered(t, "mcp-resource:");
    OpensLowered(t, "organization:");
    OpensLowered(t, "org:");
    OpensLowered(t, "dcr:");
    OpensLowered(t, "dcr_");
    OpensLowered(t, "dcr-");
    UuidLowered(t);
  }

  /** An entry is taken exactly if its fields fit, its name is none of these, and it is no public
      client with a service account. */
  lemma EntryMeans(kind: Kind, rep: Rep, url: UrlRules)
    ensures ValidEntry(kind, rep, url) <==>
      && ValidFields(kind, rep, url)
      && (exists t :: Get(rep, if kind == Client then ClientId else Name) == Some(Str(t)) && !ProvisionedName(t))
      && !(Get(rep, PublicClient) == Some(Bool(true)) && Get(rep, ServiceAccountsEnabled) == Some(Bool(true)))
  {
    hide ProvisionedName, RuntimeName, ManagedName, PlainText, Uris;
    RuntimeNameMeans(EntryName(kind, rep));
    if ValidFields(kind, rep, url) { assert Accepts(IsName, rep[IdentityField(kind)], url); }
  }

  lemma UuidLowered(t: Text)
    ensures UuidShaped(Lower(t)) <==> UuidInAnyCase(t)
  {
    if UuidShaped(Lower(t)) {
      forall i | 0 <= i < 36 ensures if i in {8, 13, 18, 23} then t[i] == 45 else HexLetter(t[i]) {
        assert Lower(t)[i] == if 65 <= t[i] <= 90 then t[i] + 32 else t[i];
      }
    }
  }

  /** No run of a valid manifest touches an object named like those of runtime provisioning. */
  lemma ProvisionedObjectsStay(m: Manifest, url: UrlRules, s: State, run: RunLog, whole: bool, p: nat, name: Text)
    requires ValidManifest(m, url) && WellFormedRealm(s, m.realm.text)
    requires IsRun(s, m.realm.text, m.settings, Items(m), run, whole)
    requires m.realm.text in s && p < |s[m.realm.text].objects| && ProvisionedName(name)
    requires Named(s[m.realm.text].objects[p], s[m.realm.text].objects[p].kind, name)
    ensures Holds(AfterRun(s, run), m.realm.text, p, s[m.realm.text].objects[p])
  {
    hide IsRun, AfterRun, WellFormedRealm, RuntimeName, ProvisionedName, ValidFields, ManagedRealmName, ValidSettings;
    ManifestOk(m, url);
    RuntimeNameMeans(name);
    var e := s[m.realm.text].objects[p];
    assert forall i :: 0 <= i < |Items(m)| ==> !RuntimeName(Items(m)[i].name);
    UnnamedStays(s, m.realm.text, m.settings, Items(m), run, whole, p);
  }

  /** Nor does it change anything of the master realm, in whatever letter case. */
  lemma MasterRealmStays(m: Manifest, url: UrlRules, s: State, run: RunLog, whole: bool, realm: Text)
    requires ValidManifest(m, url) && WellFormedRealm(s, m.realm.text)
    requires IsRun(s, m.realm.text, m.settings, Items(m), run, whole)
    requires |realm| == 6 && Opens(realm, "master")
    ensures realm in s ==> realm in AfterRun(s, run) && AfterRun(s, run)[realm] == s[realm]
    ensures realm !in s ==> realm !in AfterRun(s, run)
  {
    hide IsRun, AfterRun, WellFormedRealm, ValidCollection, ValidSettings, RealmFramed;
    ManifestOk(m, url);
    OpensLowered(realm, "master");
    assert Lower(realm) == Ascii("master");
    RunIsFramed(s, m.realm.text, m.settings, Items(m), run, whole);
  }
}
