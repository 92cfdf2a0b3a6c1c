/** What a run, cut anywhere or finished, does to the server: it converges, it
    touches only what the manifest owns, and it can always be run again. */
module RealmConvergence {
  import opened Options
  import opened JsText
  import opened RealmManifest
  import opened KeycloakServer
  import opened RealmPlan

  // ---------- one object ----------

  lemma {:induction false} MatchesAppend(objects: seq<Entry>, e: Entry, kind: Kind, name: Text)
    ensures Matches(objects + [e], kind, name)
      == Matches(objects, kind, name) + (if Named(e, kind, name) then [e.rep] else [])
  {
    assert (objects + [e])[..|objects|] == objects;
  }

  lemma {:induction false} MatchHasIndex(objects: seq<Entry>, kind: Kind, name: Text) returns (p: nat)
    requires Matches(objects, kind, name) != []
    ensures p < |objects| && Named(objects[p], kind, name) && objects[p].rep == Matches(objects, kind, name)[0]
  {
    var front := objects[..|objects| - 1];
    if Matches(front, kind, name) != [] {
      p := MatchHasIndex(front, kind, name);
    } else {
      p := |objects| - 1;
    }
  }

  /** A merge that hits only objects of one name leaves every other name's objects alone. */
  lemma {:induction false} MergeKeepsOthers(objects: seq<Entry>, it: Item, key: Key, kind: Kind, name: Text)
    requires ItemOk(it)
    requires forall i :: 0 <= i < |objects| && Hit(objects[i], it.kind, key) ==> Named(objects[i], it.kind, it.name)
    requires kind != it.kind || name != it.name
    ensures Matches(Merge(objects, it.kind, key, it.desired), kind, name) == Matches(objects, kind, name)
  {
    if objects != [] {
      var front := objects[..|objects| - 1];
      MergeKeepsOthers(front, it, key, kind, name);
      assert Merge(objects, it.kind, key, it.desired)[..|objects| - 1] == Merge(front, it.kind, key, it.desired);
    }
  }

  lemma {:induction false} MergeUpdatesOwn(objects: seq<Entry>, it: Item, key: Key)
    requires ItemOk(it)
    requires forall i :: 0 <= i < |objects| && Hit(objects[i], it.kind, key) ==> Named(objects[i], it.kind, it.name)
    requires forall i :: 0 <= i < |objects| && Named(objects[i], it.kind, it.name) ==> Hit(objects[i], it.kind, key)
    ensures
      var before, after := Matches(objects, it.kind, it.name),
        Matches(Merge(objects, it.kind, key, it.desired), it.kind, it.name);
      |after| == |before| && forall i :: 0 <= i < |before| ==> after[i] == before[i] + it.desired
  {
    if objects != [] {
      var front := objects[..|objects| - 1];
      MergeUpdatesOwn(front, it, key);
      assert Merge(objects, it.kind, key, it.desired)[..|objects| - 1] == Merge(front, it.kind, key, it.desired);
    }
  }

  lemma {:induction false} SoleMatchIsOnlyNamed(objects: seq<Entry>, kind: Kind, name: Text, p: nat, q: nat)
    requires p < |objects| && q < |objects| && Named(objects[p], kind, name) && Named(objects[q], kind, name)
    requires p != q
    ensures |Matches(objects, kind, name)| > 1
  {
    var n := |objects| - 1;
    if p == n {
      NamedIsMatched(objects[..n], kind, name, q);
    } else if q == n {
      NamedIsMatched(objects[..n], kind, name, p);
    } else {
      SoleMatchIsOnlyNamed(objects[..n], kind, name, p, q);
    }
  }

  lemma {:induction false} NamedIsMatched(objects: seq<Entry>, kind: Kind, name: Text, p: nat)
    requires p < |objects| && Named(objects[p], kind, name)
    ensures |Matches(objects, kind, name)| >= 1
  {
    if p < |objects| - 1 { NamedIsMatched(objects[..|objects| - 1], kind, name, p); }
  }

  /** The request of an update hits exactly the object that was planned for. */
  lemma UpdateHitsOwn(objects: seq<Entry>, realm: Text, it: Item)
    requires WellFormed(objects) && ItemOk(it)
    requires PlanItem(objects, realm, it).Some? && Matches(objects, it.kind, it.name) != []
    ensures
      var key := MemberKey(it, Head(Matches(objects, it.kind, it.name)));
      forall i :: 0 <= i < |objects| ==> (Hit(objects[i], it.kind, key) <==> Named(objects[i], it.kind, it.name))
  {
    var p := MatchHasIndex(objects, it.kind, it.name);
    forall i | 0 <= i < |objects| && it.kind != RealmRole && Named(objects[i], it.kind, it.name) ensures i == p {
      if i != p { SoleMatchIsOnlyNamed(objects, it.kind, it.name, i, p); }
    }
  }

  /** The object list after the operation planned for `it` has been carried out. */
  function Carried(objects: seq<Entry>, realm: Text, it: Item, c: Choice): seq<Entry>
    requires PlanItem(objects, realm, it).Some?
  {
    var matches := Matches(objects, it.kind, it.name);
    match PlanItem(objects, realm, it).value.change.action
    case CreateObject => objects + [Entry(it.kind, MadeUp(it.kind, c) + it.desired)]
    case UpdateObject => Merge(objects, it.kind, MemberKey(it, Head(matches)), it.desired)
    case Unchanged => objects
  }

  /** The object itself after that: the old one (or the server's defaults) under the supplied fields. */
  function Reconciled(it: Item, current: Option<Rep>, c: Choice): Rep {
    if current.None? then MadeUp(it.kind, c) + it.desired
    else if Differing(it.desired, current) == {} then current.value
    else current.value + it.desired
  }

  /** Own effect of one operation. */
  lemma CarriedOwn(objects: seq<Entry>, realm: Text, it: Item, c: Choice)
    requires WellFormed(objects) && ItemOk(it) && PlanItem(objects, realm, it).Some?
    ensures
      var before := Matches(objects, it.kind, it.name);
      var after := Matches(Carried(objects, realm, it, c), it.kind, it.name);
      (before == [] ==> after == [Reconciled(it, None, c)]) &&
      (before != [] ==> |after| == |before| && after[0] == Reconciled(it, Some(before[0]), c))
  {
    var before := Matches(objects, it.kind, it.name);
    if before == [] {
      MatchesAppend(objects, Entry(it.kind, MadeUp(it.kind, c) + it.desired), it.kind, it.name);
    } else if Differing(it.desired, Some(before[0])) != {} {
      UpdateHitsOwn(objects, realm, it);
      MergeUpdatesOwn(objects, it, MemberKey(it, Some(before[0])));
    }
  }

  /** One operation leaves the objects of every other (kind, name) alone. */
  lemma CarriedOthers(objects: seq<Entry>, realm: Text, it: Item, c: Choice, kind: Kind, name: Text)
    requires WellFormed(objects) && ItemOk(it) && PlanItem(objects, realm, it).Some?
    requires kind != it.kind || name != it.name
    ensures Matches(Carried(objects, realm, it, c), kind, name) == Matches(objects, kind, name)
  {
    var before := Matches(objects, it.kind, it.name);
    if before == [] {
      MatchesAppend(objects, Entry(it.kind, MadeUp(it.kind, c) + it.desired), kind, name);
    } else if Differing(it.desired, Some(before[0])) != {} {
      UpdateHitsOwn(objects, realm, it);
      MergeKeepsOthers(objects, it, MemberKey(it, Some(before[0])), kind, name);
    }
  }

  lemma CarriedWellFormed(objects: seq<Entry>, realm: Text, it: Item, c: Choice)
    requires WellFormed(objects) && ItemOk(it) && PlanItem(objects, realm, it).Some?
    requires PlanItem(objects, realm, it).value.change.action == CreateObject ==>
      !Conflicts(objects, Entry(it.kind, MadeUp(it.kind, c) + it.desired))
    ensures WellFormed(Carried(objects, realm, it, c))
  {
    if Matches(objects, it.kind, it.name) != [] { UpdateHitsOwn(objects, realm, it); }
    var after := Carried(objects, realm, it, c);
    assert Id !in it.desired && (it.kind == RealmRole ==> Get(it.desired, Name) == Some(Str(it.name)));
    forall i, j | 0 <= i < j < |after| && after[i].kind == after[j].kind
      ensures Get(after[i].rep, Id) != Get(after[j].rep, Id)
      ensures after[i].kind == RealmRole ==> Get(after[i].rep, Name) != Get(after[j].rep, Name)
    {
      if j < |objects| {
        assert Get(after[i].rep, Id) == Get(objects[i].rep, Id) && Get(after[j].rep, Id) == Get(objects[j].rep, Id);
      }
    }
  }

  /** Well-formed servers hold at most one realm role of a name. */
  lemma {:induction false} RoleIsSole(objects: seq<Entry>, name: Text)
    requires WellFormed(objects)
    ensures |Matches(objects, RealmRole, name)| <= 1
  {
    if objects != [] {
      var front := objects[..|objects| - 1];
      RoleIsSole(front, name);
      if Matches(front, RealmRole, name) != [] && Named(objects[|objects| - 1], RealmRole, name) {
        var p := MatchHasIndex(front, RealmRole, name);
        assert false;
      }
    }
  }

  // ---------- one item over a run ----------

  /** The server's objects for an item, before and after its operation; `proper` if the server
      is known to create properly. */
  ghost predicate Treated(before: seq<Rep>, after: seq<Rep>, it: Item, proper: bool) {
    if before == [] then exists c :: (proper ==> Proper(c)) && after == [MadeUp(it.kind, c) + it.desired]
    else after == [if Differing(it.desired, Some(before[0])) == {} then before[0] else before[0] + it.desired]
  }

  /** Exactly one object carries the name, and it shows every supplied value, array order aside. */
  ghost predicate Settled(matches: seq<Rep>, it: Item) {
    |matches| == 1 && forall f :: f in it.desired ==> f in matches[0] && SameValue(it.desired[f], matches[0][f])
  }

  lemma TreatedIsSettled(before: seq<Rep>, after: seq<Rep>, it: Item, proper: bool)
    requires ItemOk(it) && Treated(before, after, it, proper)
    ensures Settled(after, it)
  {
    forall f | f in it.desired ensures f in after[0] && SameValue(it.desired[f], after[0][f]) {
      if before != [] && Differing(it.desired, Some(before[0])) == {} {
        assert f !in Differing(it.desired, Some(before[0]));
        EqualIsSameValue(it.desired[f], before[0][f]);
      }
    }
  }

  lemma MergedIsAdoptable(it: Item, current: Rep)
    requires ItemOk(it) && Adoptable(it, Some(current))
    ensures Adoptable(it, Some(current + it.desired))
  {
    assert Id !in it.desired && ClientRole !in it.desired && RegistrationAccessToken !in it.desired;
  }

  lemma CreatedIsAdoptable(it: Item, c: Choice)
    requires ItemOk(it) && Adoptable(it, None) && Proper(c)
    ensures Adoptable(it, Some(MadeUp(it.kind, c) + it.desired))
  {
    assert Id !in it.desired && ClientRole !in it.desired && RegistrationAccessToken !in it.desired;
  }

  /** What a run made of an object can be planned for again. */
  lemma TreatedIsAdoptable(before: seq<Rep>, after: seq<Rep>, it: Item)
    requires ItemOk(it) && Treated(before, after, it, true) && Adoptable(it, Head(before))
    ensures Adoptable(it, Head(after))
  {
    hide ItemOk, Proper, Adoptable, Differing;
    if before == [] {
      var c :| Proper(c) && after == [MadeUp(it.kind, c) + it.desired];
      CreatedIsAdoptable(it, c);
    } else {
      MergedIsAdoptable(it, before[0]);
    }
  }

  /** Neither operation leaves a client both public and service-account enabled. */
  lemma TreatedIsNotBoth(before: seq<Rep>, after: seq<Rep>, it: Item)
    requires ItemOk(it) && Treated(before, after, it, true) && Adoptable(it, Head(before)) && it.kind == Client
    ensures !PublicServiceAccount(after[0])
  {
    if before != [] && Differing(it.desired, Some(before[0])) == {} {
      forall f | f in it.desired && it.desired[f].Bool? ensures Get(before[0], f) == Some(it.desired[f]) {
        assert f !in Differing(it.desired, Some(before[0]));
      }
    }
  }

  // ---------- settings ----------

  ghost predicate SettingsOk(settings: Rep) {
    forall f :: f in settings ==> SettingsCheck(f).Some? && Comparable(settings[f])
  }

  function ReconciledSettings(rep: Rep, settings: Rep): Rep {
    if Differing(settings, Some(rep)) == {} then rep else rep + settings
  }

  ghost predicate SettingsSettled(rep: Rep, settings: Rep) {
    forall f :: f in settings ==> f in rep && SameValue(settings[f], rep[f])
  }

  lemma ReconciledSettingsSettle(rep: Rep, settings: Rep)
    requires SettingsOk(settings)
    ensures SettingsSettled(ReconciledSettings(rep, settings), settings)
  {
    forall f | f in settings
      ensures f in ReconciledSettings(rep, settings) && SameValue(settings[f], ReconciledSettings(rep, settings)[f]) {
      if Differing(settings, Some(rep)) == {} {
        assert f !in Differing(settings, Some(rep));
        EqualIsSameValue(settings[f], rep[f]);
      }
    }
  }

  // ---------- a whole run ----------

  /** After the first `j` operations of a plan made in `s`: settings and the first
      items are done, the rest still looks as it did when it was planned. */
  ghost predicate After(s: Realm, t: Realm, settings: Rep, items: seq<Item>, j: nat, proper: bool) {
    && WellFormed(t.objects)
    && t.rep == (if j == 0 then s.rep else ReconciledSettings(s.rep, settings))
    && (forall i :: 0 <= i < |items| && i + 1 < j ==>
          Treated(Matches(s.objects, items[i].kind, items[i].name), Matches(t.objects, items[i].kind, items[i].name),
            items[i], proper))
    && (forall i :: 0 <= i < |items| && i + 1 >= j ==>
          Matches(t.objects, items[i].kind, items[i].name) == Matches(s.objects, items[i].kind, items[i].name))
  }

  /** Carrying out one accepted item request in a state. */
  lemma ServeItem(s: State, realm: Text, it: Item, c: Choice)
    requires realm in s && WellFormed(s[realm].objects) && ItemOk(it)
    requires PlanItem(s[realm].objects, realm, it).Some?
    requires
      var op := PlanItem(s[realm].objects, realm, it).value;
      op.request.Some? && Serve(s, op.request.value, c).response.status == ExpectedStatus(op.request.value.verb)
    ensures
      var op := PlanItem(s[realm].objects, realm, it).value;
      && Serve(s, op.request.value, c).state == s[realm := Realm(s[realm].rep, Carried(s[realm].objects, realm, it, c))]
      && WellFormed(Carried(s[realm].objects, realm, it, c))
  {
    CarriedWellFormed(s[realm].objects, realm, it, c);
  }

  lemma ItemIsTreated(before: seq<Entry>, realm: Text, it: Item, c: Choice, proper: bool)
    requires WellFormed(before) && ItemOk(it) && PlanItem(before, realm, it).Some?
    requires proper && PlanItem(before, realm, it).value.change.action == CreateObject ==> Proper(c)
    ensures Treated(Matches(before, it.kind, it.name), Matches(Carried(before, realm, it, c), it.kind, it.name), it,
      proper)
  {
    hide Carried;
    CarriedOwn(before, realm, it, c);
    if it.kind == RealmRole { RoleIsSole(before, it.name); }
  }

  lemma AfterItem(s: Realm, t: Realm, u: Realm, realm: Text, settings: Rep, items: seq<Item>, j: nat, c: Choice,
      proper: bool)
    requires ItemsOk(items) && 1 <= j <= |items| && WellFormed(s.objects)
    requires After(s, t, settings, items, j, proper)
    requires PlanItem(s.objects, realm, items[j - 1]).Some?
    requires PlanItem(t.objects, realm, items[j - 1]) == PlanItem(s.objects, realm, items[j - 1])
    requires u.rep == t.rep && u.objects == Carried(t.objects, realm, items[j - 1], c) && WellFormed(u.objects)
    requires proper && PlanItem(s.objects, realm, items[j - 1]).value.change.action == CreateObject ==> Proper(c)
    ensures After(s, u, settings, items, j + 1, proper)
  {
    hide WellFormed, PlanItem, Carried, Treated, ItemOk, Proper, ReconciledSettings;
    var it := items[j - 1];
    ItemIsTreated(t.objects, realm, it, c, proper);
    forall i | 0 <= i < |items| && i != j - 1
      ensures Matches(u.objects, items[i].kind, items[i].name) == Matches(t.objects, items[i].kind, items[i].name)
    {
      assert items[i].kind != it.kind || items[i].name != it.name;
      CarriedOthers(t.objects, realm, it, c, items[i].kind, items[i].name);
    }
  }

  /** An item that is not reached yet would be planned the same again. */
  lemma StillPlanned(s: Realm, t: Realm, realm: Text, settings: Rep, items: seq<Item>, ops: seq<Operation>, j: nat,
      proper: bool)
    requires IsPlan(s, realm, settings, items, ops) && 1 <= j < |ops| && After(s, t, settings, items, j, proper)
    ensures PlanItem(t.objects, realm, items[j - 1]) == PlanItem(s.objects, realm, items[j - 1]) == Some(ops[j])
  {
    assert ops[1..][j - 1] == ops[j];
  }

  /** One more operation of the plan, carried out in the state the earlier ones left. */
  lemma AfterOperation(s: State, t: State, realm: Text, settings: Rep, items: seq<Item>, ops: seq<Operation>, j: nat,
      c: Choice, proper: bool)
    requires realm in s && WellFormed(s[realm].objects) && ItemsOk(items)
    requires IsPlan(s[realm], realm, settings, items, ops) && j < |ops|
    requires realm in t && After(s[realm], t[realm], settings, items, j, proper)
    requires ops[j].request.Some? ==>
      && (proper ==> Proper(c))
      && Serve(t, ops[j].request.value, c).response.status == ExpectedStatus(ops[j].request.value.verb)
    ensures
      var u := if ops[j].request.Some? then Serve(t, ops[j].request.value, c).state else t;
      realm in u && u == t[realm := u[realm]] && After(s[realm], u[realm], settings, items, j + 1, proper)
  {
    if j >= 1 {
      var it := items[j - 1];
      StillPlanned(s[realm], t[realm], realm, settings, items, ops, j, proper);
      if ops[j].request.Some? { ServeItem(t, realm, it, c); }
      AfterItem(s[realm], t[realm], Realm(t[realm].rep, Carried(t[realm].objects, realm, it, c)), realm, settings,
        items, j, c, proper);
    }
  }

  // ---------- frame ----------

  ghost predicate SameOutside(before: Rep, after: Rep, owned: Rep) {
    before.Keys <= after.Keys && forall f :: f !in owned ==> Get(after, f) == Get(before, f)
  }

  /** An object keeps its kind; it changes only if the manifest names it, and then only in supplied fields. */
  ghost predicate EntryFramed(before: Entry, after: Entry, items: seq<Item>) {
    before == after ||
    exists i :: 0 <= i < |items| && Named(before, items[i].kind, items[i].name)
      && Named(after, items[i].kind, items[i].name) && SameOutside(before.rep, after.rep, items[i].desired)
  }

  /** Nothing is removed, unmanaged objects and unsupplied fields stay, new objects are named ones. */
  ghost predicate RealmFramed(before: Realm, after: Realm, settings: Rep, items: seq<Item>) {
    && SameOutside(before.rep, after.rep, settings)
    && |before.objects| <= |after.objects|
    && (forall i :: 0 <= i < |before.objects| ==> EntryFramed(before.objects[i], after.objects[i], items))
    && (forall i :: |before.objects| <= i < |after.objects| ==> Managed(after.objects[i], items))
  }

  /** The manifest names this object. */
  ghost predicate Managed(e: Entry, items: seq<Item>) {
    exists i :: 0 <= i < |items| && Named(e, items[i].kind, items[i].name)
  }

  lemma EntryFramedTransitive(a: Entry, b: Entry, c: Entry, items: seq<Item>)
    requires ItemsOk(items) && EntryFramed(a, b, items) && EntryFramed(b, c, items)
    ensures EntryFramed(a, c, items)
  {
    if a != b && b != c {
      var i :| 0 <= i < |items| && Named(a, items[i].kind, items[i].name)
        && Named(b, items[i].kind, items[i].name) && SameOutside(a.rep, b.rep, items[i].desired);
      var j :| 0 <= j < |items| && Named(b, items[j].kind, items[j].name)
        && Named(c, items[j].kind, items[j].name) && SameOutside(b.rep, c.rep, items[j].desired);
      assert i == j;
    }
  }

  lemma RealmFramedTransitive(a: Realm, b: Realm, c: Realm, settings: Rep, items: seq<Item>)
    requires ItemsOk(items) && RealmFramed(a, b, settings, items) && RealmFramed(b, c, settings, items)
    ensures RealmFramed(a, c, settings, items)
  {
    forall i | 0 <= i < |a.objects| ensures EntryFramed(a.objects[i], c.objects[i], items) {
      EntryFramedTransitive(a.objects[i], b.objects[i], c.objects[i], items);
    }
    forall i | |a.objects| <= i < |c.objects| ensures Managed(c.objects[i], items) {
      if i < |b.objects| && b.objects[i] != c.objects[i] {
        assert EntryFramed(b.objects[i], c.objects[i], items);
      }
    }
  }

  lemma MergedEntryFramed(e: Entry, items: seq<Item>, k: nat)
    requires k < |items| && ItemOk(items[k]) && Named(e, items[k].kind, items[k].name)
    ensures EntryFramed(e, Entry(items[k].kind, e.rep + items[k].desired), items)
  {
    var after := Entry(items[k].kind, e.rep + items[k].desired);
    assert Named(after, items[k].kind, items[k].name) && SameOutside(e.rep, after.rep, items[k].desired);
  }

  lemma CarriedFramed(r: Realm, realm: Text, settings: Rep, items: seq<Item>, k: nat, c: Choice)
    requires WellFormed(r.objects) && k < |items| && ItemOk(items[k]) && PlanItem(r.objects, realm, items[k]).Some?
    ensures RealmFramed(r, Realm(r.rep, Carried(r.objects, realm, items[k], c)), settings, items)
  {
    hide EntryFramed, WellFormed;
    var it, after := items[k], Carried(r.objects, realm, items[k], c);
    if Matches(r.objects, it.kind, it.name) != [] { UpdateHitsOwn(r.objects, realm, it); }
    forall i | 0 <= i < |r.objects| ensures EntryFramed(r.objects[i], after[i], items) {
      if after[i] == r.objects[i] {
        SameEntryFramed(after[i], items);
      } else {
        MergedEntryFramed(r.objects[i], items, k);
      }
    }
  }

  lemma SameEntryFramed(e: Entry, items: seq<Item>)
    ensures EntryFramed(e, e, items)
  {
  }

  lemma ItemFramed(t: State, realm: Text, settings: Rep, items: seq<Item>, k: nat, c: Choice)
    requires realm in t && WellFormed(t[realm].objects) && k < |items| && ItemOk(items[k])
    requires PlanItem(t[realm].objects, realm, items[k]).Some?
    requires
      var op := PlanItem(t[realm].objects, realm, items[k]).value;
      op.request.Some? && Serve(t, op.request.value, c).response.status == ExpectedStatus(op.request.value.verb)
    ensures
      var u := Serve(t, PlanItem(t[realm].objects, realm, items[k]).value.request.value, c).state;
      realm in u && RealmFramed(t[realm], u[realm], settings, items)
  {
    hide RealmFramed, Serve, PlanItem, WellFormed, ItemOk, Carried;
    ServeItem(t, realm, items[k], c);
    CarriedFramed(t[realm], realm, settings, items, k, c);
  }

  /** One operation of a plan is framed. */
  lemma OperationFramed(s: State, t: State, realm: Text, settings: Rep, items: seq<Item>, ops: seq<Operation>, j: nat,
      c: Choice, proper: bool)
    requires realm in s && WellFormed(s[realm].objects) && ItemsOk(items)
    requires IsPlan(s[realm], realm, settings, items, ops) && j < |ops|
    requires realm in t && After(s[realm], t[realm], settings, items, j, proper)
    requires ops[j].request.Some? ==>
      Serve(t, ops[j].request.value, c).response.status == ExpectedStatus(ops[j].request.value.verb)
    ensures
      var u := if ops[j].request.Some? then Serve(t, ops[j].request.value, c).state else t;
      realm in u && RealmFramed(t[realm], u[realm], settings, items)
  {
    hide RealmFramed, PlanItem, Planned, WellFormed;
    if ops[j].request.None? {
      RealmFramedReflexive(t[realm], settings, items);
    } else if j == 0 {
      SettingsFramed(t[realm], settings, items);
      SettingsRequest(s[realm].rep, realm, settings);
    } else {
      StillPlanned(s[realm], t[realm], realm, settings, items, ops, j, proper);
      ItemFramed(t, realm, settings, items, j - 1, c);
    }
  }

  lemma SettingsRequest(rep: Rep, realm: Text, settings: Rep)
    ensures var q := PlanSettings(rep, realm, settings).request; q.Some? ==>
      q.value == Request(PUT, Root(realm), settings)
  {
  }

  lemma SettingsFramed(r: Realm, settings: Rep, items: seq<Item>)
    ensures RealmFramed(r, Realm(r.rep + settings, r.objects), settings, items)
  {
  }

  lemma RealmFramedReflexive(r: Realm, settings: Rep, items: seq<Item>)
    ensures RealmFramed(r, r, settings, items)
  {
  }

  // ---------- whole runs ----------

  /** The writes of the first `j` operations, whatever the server made up on the way. */
  lemma {:induction false} RunPrefix(s: State, realm: Text, settings: Rep, items: seq<Item>, ops: seq<Operation>,
      j: nat, ws: seq<Write>, proper: bool)
    requires realm in s && WellFormed(s[realm].objects) && ItemsOk(items) && SettingsOk(settings)
    requires IsPlan(s[realm], realm, settings, items, ops) && j <= |ops|
    requires Requests(ws) == Writes(ops[..j]) && Succeeds(s, ws) && (proper ==> AllProper(ws))
    ensures realm in ServeAll(s, ws) && ServeAll(s, ws) == s[realm := ServeAll(s, ws)[realm]]
    ensures After(s[realm], ServeAll(s, ws)[realm], settings, items, j, proper)
    ensures RealmFramed(s[realm], ServeAll(s, ws)[realm], settings, items)
  {
    hide IsPlan, After, WellFormed, Serve, Proper, SettingsOk, ItemsOk, RealmFramed;
    if j == 0 {
      assert Writes(ops[..0]) == [];
      assert |ws| == |Requests(ws)| == 0;
      AfterNothing(s[realm], settings, items, proper);
      RealmFramedReflexive(s[realm], settings, items);
    } else {
      PlanLength(s[realm], realm, settings, items, ops);
      var op := ops[j - 1];
      assert ops[..j][..j - 1] == ops[..j - 1] && ops[..j][j - 1] == op;
      if op.request.Some? {
        var front, last := ws[..|ws| - 1], ws[|ws| - 1];
        assert Requests(ws) == Requests(front) + [last.request];
        assert Requests(front) == Requests(ws)[..|ws| - 1] == Writes(ops[..j - 1]);
        assert last.request == Requests(ws)[|ws| - 1] == op.request.value;
        RunPrefix(s, realm, settings, items, ops, j - 1, front, proper);
        AfterOperation(s, ServeAll(s, front), realm, settings, items, ops, j - 1, last.choice, proper);
        OperationFramed(s, ServeAll(s, front), realm, settings, items, ops, j - 1, last.choice, proper);
        RealmFramedTransitive(s[realm], ServeAll(s, front)[realm], ServeAll(s, ws)[realm], settings, items);
      } else {
        var any := Choice(map[], map[], map[], s[realm]);
        RunPrefix(s, realm, settings, items, ops, j - 1, ws, proper);
        AfterOperation(s, ServeAll(s, ws), realm, settings, items, ops, j - 1, any, proper);
        OperationFramed(s, ServeAll(s, ws), realm, settings, items, ops, j - 1, any, proper);
        RealmFramedTransitive(s[realm], ServeAll(s, ws)[realm], ServeAll(s, ws)[realm], settings, items);
      }
    }
  }

  lemma AfterNothing(r: Realm, settings: Rep, items: seq<Item>, proper: bool)
    requires WellFormed(r.objects)
    ensures After(r, r, settings, items, 0, proper)
  {
  }

  lemma PlanLength(r: Realm, realm: Text, settings: Rep, items: seq<Item>, ops: seq<Operation>)
    requires IsPlan(r, realm, settings, items, ops)
    ensures |ops| == |items| + 1
  {
  }

  /** The committed writes of one run: the bootstrap of a missing realm, then the plan's. */
  datatype RunLog = RunLog(boot: Option<Write>, writes: seq<Write>)

  function BootstrapRequest(realm: Text): Request {
    Request(POST, Realms, map[RealmName := Str(realm)])
  }

  function Booted(s: State, run: RunLog): State {
    if run.boot.Some? then Serve(s, run.boot.value.request, run.boot.value.choice).state else s
  }

  function AfterRun(s: State, run: RunLog): State {
    ServeAll(Booted(s, run), run.writes)
  }

  /** The committed writes belong to the first operations of a plan for `s`; to all of them if `whole`. */
  ghost predicate FollowsPlan(s: State, realm: Text, settings: Rep, items: seq<Item>, ws: seq<Write>, whole: bool) {
    && realm in s && Succeeds(s, ws)
    && exists ops: seq<Operation>, j: nat ::
         j <= |ops| && (whole ==> j == |ops|) && IsPlan(s[realm], realm, settings, items, ops)
           && Requests(ws) == Writes(ops[..j])
  }

  /** What one apply run from `s` may have committed: cut before, at or after any write, or finished (`whole`).
      Of the server it says only that the objects of a new realm are well-formed. */
  ghost predicate IsRun(s: State, realm: Text, settings: Rep, items: seq<Item>, run: RunLog, whole: bool) {
    && (run.boot.Some? ==>
      realm !in s && run.boot.value.request == BootstrapRequest(realm)
        && WellFormed(run.boot.value.choice.realm.objects))
    && ((!whole && run.writes == []) || FollowsPlan(Booted(s, run), realm, settings, items, run.writes, whole))
  }

  ghost predicate WellFormedRealm(s: State, realm: Text) {
    realm in s ==> WellFormed(s[realm].objects)
  }

  /** Every owned field shows the manifest's value, array order aside, on exactly one object per name. */
  ghost predicate Converged(s: State, realm: Text, settings: Rep, items: seq<Item>) {
    && realm in s && SettingsSettled(s[realm].rep, settings)
    && forall i :: 0 <= i < |items| ==> Settled(Matches(s[realm].objects, items[i].kind, items[i].name), items[i])
  }

  /** No other realm changes; the managed one is framed where it existed before. */
  ghost predicate Framed(s: State, t: State, realm: Text, settings: Rep, items: seq<Item>) {
    && s.Keys <= t.Keys && t.Keys <= s.Keys + {realm}
    && (forall r :: r in s && r != realm ==> t[r] == s[r])
    && (realm in s ==> RealmFramed(s[realm], t[realm], settings, items))
  }

  lemma FramedTransitive(a: State, b: State, c: State, realm: Text, settings: Rep, items: seq<Item>)
    requires ItemsOk(items) && Framed(a, b, realm, settings, items) && Framed(b, c, realm, settings, items)
    ensures Framed(a, c, realm, settings, items)
  {
    if realm in a { RealmFramedTransitive(a[realm], b[realm], c[realm], settings, items); }
  }

  lemma FramedReflexive(s: State, realm: Text, settings: Rep, items: seq<Item>)
    ensures Framed(s, s, realm, settings, items)
  {
    if realm in s { RealmFramedReflexive(s[realm], settings, items); }
  }

  /** Any run, cut or whole, keeps the server well-formed and is framed. */
  lemma RunIsFramed(s: State, realm: Text, settings: Rep, items: seq<Item>, run: RunLog, whole: bool)
    requires WellFormedRealm(s, realm) && ItemsOk(items) && SettingsOk(settings)
    requires IsRun(s, realm, settings, items, run, whole)
    ensures WellFormedRealm(AfterRun(s, run), realm) && Framed(s, AfterRun(s, run), realm, settings, items)
  {
    var b := Booted(s, run);
    BootIsFramed(s, realm, settings, items, run);
    hide Framed, RealmFramed, After, IsPlan, Serve, Proper, WellFormed;
    if FollowsPlan(b, realm, settings, items, run.writes, whole) {
      var ops: seq<Operation>, j: nat :| j <= |ops| && IsPlan(b[realm], realm, settings, items, ops)
        && Requests(run.writes) == Writes(ops[..j]);
      RunPrefix(b, realm, settings, items, ops, j, run.writes, false);
      AfterKeepsWellFormed(b[realm], AfterRun(s, run)[realm], settings, items, j, false);
      OneRealmFramed(b, AfterRun(s, run), realm, settings, items);
      FramedTransitive(s, b, AfterRun(s, run), realm, settings, items);
    }
  }

  lemma OneRealmFramed(s: State, t: State, realm: Text, settings: Rep, items: seq<Item>)
    requires realm in s && realm in t && t == s[realm := t[realm]] && RealmFramed(s[realm], t[realm], settings, items)
    ensures Framed(s, t, realm, settings, items)
  {
    hide RealmFramed;
  }

  lemma AfterKeepsWellFormed(s: Realm, t: Realm, settings: Rep, items: seq<Item>, j: nat,
      proper: bool)
    requires After(s, t, settings, items, j, proper)
    ensures WellFormed(t.objects)
  {
  }

  lemma BootIsFramed(s: State, realm: Text, settings: Rep, items: seq<Item>, run: RunLog)
    requires WellFormedRealm(s, realm)
    requires run.boot.Some? ==>
      realm !in s && run.boot.value.request == BootstrapRequest(realm)
        && WellFormed(run.boot.value.choice.realm.objects)
    ensures WellFormedRealm(Booted(s, run), realm) && Framed(s, Booted(s, run), realm, settings, items)
  {
    hide RealmFramed, WellFormed;
    FramedReflexive(s, realm, settings, items);
  }

  /** A run that returns has converged, from whatever well-formed state it started. */
  lemma WholeRunConverges(s: State, realm: Text, settings: Rep, items: seq<Item>, run: RunLog)
    requires WellFormedRealm(s, realm) && ItemsOk(items) && SettingsOk(settings)
    requires IsRun(s, realm, settings, items, run, true)
    ensures Converged(AfterRun(s, run), realm, settings, items)
  {
    var b, t := Booted(s, run), AfterRun(s, run);
    var ops: seq<Operation>, j: nat :| j == |ops| && IsPlan(b[realm], realm, settings, items, ops)
      && Requests(run.writes) == Writes(ops[..j]);
    assert WellFormedRealm(b, realm);
    RunPrefix(b, realm, settings, items, ops, j, run.writes, false);
    ReconciledSettingsSettle(b[realm].rep, settings);
    forall i | 0 <= i < |items| ensures Settled(Matches(t[realm].objects, items[i].kind, items[i].name), items[i]) {
      TreatedIsSettled(Matches(b[realm].objects, items[i].kind, items[i].name),
        Matches(t[realm].objects, items[i].kind, items[i].name), items[i], false);
    }
  }

  /** After a run that returned, with a server that creates properly, no managed client is both
      public and service-account enabled. */
  lemma WholeRunSeparatesClients(s: State, realm: Text, settings: Rep, items: seq<Item>, run: RunLog, i: nat)
    requires WellFormedRealm(s, realm) && ItemsOk(items) && SettingsOk(settings)
    requires IsRun(s, realm, settings, items, run, true) && AllProper(run.writes)
    requires i < |items| && items[i].kind == Client
    ensures realm in AfterRun(s, run)
    ensures forall p ::
      0 <= p < |AfterRun(s, run)[realm].objects| && Named(AfterRun(s, run)[realm].objects[p], Client, items[i].name) ==>
      !PublicServiceAccount(AfterRun(s, run)[realm].objects[p].rep)
  {
    BootIsFramed(s, realm, settings, items, run);
    hide Framed, RealmFramed, WellFormed, ItemOk, SettingsOk, Serve, Proper, PublicServiceAccount;
    var b, t := Booted(s, run), AfterRun(s, run);
    var ops: seq<Operation>, j: nat :| j == |ops| && IsPlan(b[realm], realm, settings, items, ops)
      && Requests(run.writes) == Writes(ops[..j]);
    RunPrefix(b, realm, settings, items, ops, j, run.writes, true);
    ClientIsNotBoth(b[realm], t[realm], realm, settings, items, ops, i);
  }

  lemma ClientIsNotBoth(s: Realm, t: Realm, realm: Text, settings: Rep, items: seq<Item>, ops: seq<Operation>, i: nat)
    requires IsPlan(s, realm, settings, items, ops) && ItemsOk(items) && After(s, t, settings, items, |ops|, true)
    requires i < |items| && items[i].kind == Client
    ensures forall p :: 0 <= p < |t.objects| && Named(t.objects[p], Client, items[i].name) ==>
      !PublicServiceAccount(t.objects[p].rep)
  {
    hide PublicServiceAccount, WellFormed, ItemOk;
    var before, after := Matches(s.objects, Client, items[i].name), Matches(t.objects, Client, items[i].name);
    assert PlanItem(s.objects, realm, items[i]) == Some(ops[1..][i]);
    TreatedIsNotBoth(before, after, items[i]);
    NamedShowsMatch(t.objects, Client, items[i].name);
  }

  lemma NamedShowsMatch(objects: seq<Entry>, kind: Kind, name: Text)
    requires |Matches(objects, kind, name)| == 1
    ensures forall p :: 0 <= p < |objects| && Named(objects[p], kind, name) ==>
      objects[p].rep == Matches(objects, kind, name)[0]
  {
    var q := MatchHasIndex(objects, kind, name);
    forall p | 0 <= p < |objects| && Named(objects[p], kind, name) ensures p == q {
      if p != q { SoleMatchIsOnlyNamed(objects, kind, name, p, q); }
    }
  }

  /** From a converged server every plan is empty. */
  lemma ConvergedPlansNothing(s: State, realm: Text, settings: Rep, items: seq<Item>, ops: seq<Operation>)
    requires Converged(s, realm, settings, items) && ItemsOk(items) && SettingsOk(settings)
    requires IsPlan(s[realm], realm, settings, items, ops)
    ensures forall k :: 0 <= k < |ops| ==> ops[k].change.action == Unchanged && ops[k].request == None
    ensures Writes(ops) == []
  {
    forall k | 0 <= k < |ops| ensures ops[k].change.action == Unchanged && ops[k].request == None {
      if k == 0 {
        forall f | f in settings
          ensures Equal(settings[f], s[realm].rep[f]) { EqualIsSameValue(settings[f], s[realm].rep[f]); }
        assert Differing(settings, Some(s[realm].rep)) == {};
      } else {
        var it := items[k - 1];
        assert ops[1..][k - 1] == ops[k];
        var rep := Matches(s[realm].objects, it.kind, it.name)[0];
        forall f | f in it.desired ensures Equal(it.desired[f], rep[f]) { EqualIsSameValue(it.desired[f], rep[f]); }
        assert Differing(it.desired, Some(rep)) == {};
      }
    }
    NoRequestsNoWrites(ops);
  }

  lemma {:induction false} NoRequestsNoWrites(ops: seq<Operation>)
    requires forall k :: 0 <= k < |ops| ==> ops[k].request == None
    ensures Writes(ops) == []
  {
    if ops != [] { NoRequestsNoWrites(ops[..|ops| - 1]); }
  }

  /** Whatever was cut, if the server creates properly planning succeeds again: same realm
      identity, every item plannable. */
  lemma RunStaysPlannable(s: State, realm: Text, settings: Rep, items: seq<Item>, run: RunLog, whole: bool)
    requires realm in s && WellFormed(s[realm].objects) && ItemsOk(items) && SettingsOk(settings)
    requires RealmOk(s[realm].rep, realm) && Plannable(s[realm].objects, realm, items)
    requires IsRun(s, realm, settings, items, run, whole) && AllProper(run.writes)
    ensures realm in AfterRun(s, run)
    ensures RealmOk(AfterRun(s, run)[realm].rep, realm) && Plannable(AfterRun(s, run)[realm].objects, realm, items)
  {
    var t := AfterRun(s, run);
    if FollowsPlan(s, realm, settings, items, run.writes, whole) {
      var ops: seq<Operation>, j: nat :| j <= |ops| && IsPlan(s[realm], realm, settings, items, ops)
        && Requests(run.writes) == Writes(ops[..j]);
      RunPrefix(s, realm, settings, items, ops, j, run.writes, true);
      assert Id !in settings && RealmName !in settings;
      forall i | 0 <= i < |items| ensures PlanItem(t[realm].objects, realm, items[i]).Some? {
        assert PlanItem(s[realm].objects, realm, items[i]).Some?;
        if i + 1 < j {
          TreatedIsAdoptable(Matches(s[realm].objects, items[i].kind, items[i].name),
            Matches(t[realm].objects, items[i].kind, items[i].name), items[i]);
        }
      }
    }
  }

  /** States linked by apply runs, each cut anywhere. */
  ghost predicate CutRuns(states: seq<State>, realm: Text, settings: Rep, items: seq<Item>) {
    && states != []
    && forall i :: 0 <= i < |states| - 1 ==> CutRun(states[i], states[i + 1], realm, settings, items)
  }

  ghost predicate CutRun(s: State, t: State, realm: Text, settings: Rep, items: seq<Item>) {
    exists run :: IsRun(s, realm, settings, items, run, false) && t == AfterRun(s, run)
  }

  lemma {:induction false} CutRunsAreFramed(states: seq<State>, realm: Text, settings: Rep, items: seq<Item>)
    requires CutRuns(states, realm, settings, items)
    requires WellFormedRealm(states[0], realm) && ItemsOk(items) && SettingsOk(settings)
    ensures WellFormedRealm(states[|states| - 1], realm)
      && Framed(states[0], states[|states| - 1], realm, settings, items)
  {
    hide IsRun, Framed, WellFormedRealm, ItemsOk, SettingsOk, AfterRun;
    var n := |states| - 1;
    if n == 0 {
      FramedReflexive(states[0], realm, settings, items);
    } else {
      CutRunsAreFramed(states[..n], realm, settings, items);
      assert CutRun(states[n - 1], states[n], realm, settings, items);
      var run :| IsRun(states[n - 1], realm, settings, items, run, false) && states[n] == AfterRun(states[n - 1], run);
      RunIsFramed(states[n - 1], realm, settings, items, run, false);
      FramedTransitive(states[0], states[n - 1], states[n], realm, settings, items);
    }
  }

  /** Crash convergence. Any number of apply runs of a valid manifest, each cut at
      any write (committed or not), then one that returns: the server shows the
      manifest, every later plan is empty, a later run commits nothing wherever it is cut,
      and nothing unmanaged has changed since the start. */
  lemma CrashConvergence(m: Manifest, url: UrlRules, states: seq<State>, run: RunLog)
    requires ValidManifest(m, url)
    requires CutRuns(states, m.realm.text, m.settings, Items(m)) && WellFormedRealm(states[0], m.realm.text)
    requires IsRun(states[|states| - 1], m.realm.text, m.settings, Items(m), run, true)
    ensures
      var end := AfterRun(states[|states| - 1], run);
      && Converged(end, m.realm.text, m.settings, Items(m))
      && Framed(states[0], end, m.realm.text, m.settings, Items(m))
      && forall again, all :: IsRun(end, m.realm.text, m.settings, Items(m), again, all) ==>
        again.boot == None && again.writes == []
  {
    var realm, settings, items, last := m.realm.text, m.settings, Items(m), states[|states| - 1];
    ManifestOk(m, url);
    hide ValidSettings, ValidCollection, WellFormedRealm, Framed, Converged, Proper, IsPlan, ItemsOk, SettingsOk,
      Serve, CutRuns;
    CutRunsAreFramed(states, realm, settings, items);
    RunIsFramed(last, realm, settings, items, run, true);
    FramedTransitive(states[0], last, AfterRun(last, run), realm, settings, items);
    WholeRunConverges(last, realm, settings, items, run);
    var end := AfterRun(last, run);
    forall again, all | IsRun(end, realm, settings, items, again, all)
      ensures again.boot == None && again.writes == [] {
      ConvergedRunWritesNothing(end, realm, settings, items, again, all);
    }
  }

  /** A run on a converged server commits nothing, wherever it is cut. */
  lemma ConvergedRunWritesNothing(s: State, realm: Text, settings: Rep, items: seq<Item>, again: RunLog,
      whole: bool)
    requires Converged(s, realm, settings, items) && ItemsOk(items) && SettingsOk(settings)
    requires IsRun(s, realm, settings, items, again, whole)
    ensures again.boot == None && again.writes == []
  {
    hide ItemsOk, SettingsOk, Serve;
    if FollowsPlan(s, realm, settings, items, again.writes, whole) {
      var ops: seq<Operation>, j: nat :| j <= |ops| && IsPlan(s[realm], realm, settings, items, ops)
        && Requests(again.writes) == Writes(ops[..j]);
      ConvergedPlansNothing(s, realm, settings, items, ops);
      NoRequestsNoWrites(ops[..j]);
      assert |again.writes| == |Requests(again.writes)|;
    }
  }

  lemma ManifestOk(m: Manifest, url: UrlRules)
    requires ValidManifest(m, url)
    ensures ItemsOk(Items(m)) && SettingsOk(m.settings)
  {
    ValidManifestItems(m, url);
  }
}
