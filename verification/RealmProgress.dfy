/** When runs get somewhere: calls that are delivered, ids that are new, and writes
    the server then accepts. */
module RealmProgress {
  import opened Options
  import opened JsText
  import opened RealmManifest
  import opened KeycloakServer
  import opened RealmPlan
  import opened RealmConvergence

  /** Every call from this one on arrives and is answered. */
  ghost predicate Delivers(env: Environment, from: nat) {
    forall n :: n >= from ==> env.fault(n).Deliver?
  }

  lemma DeliversLater(env: Environment, from: nat, later: nat)
    requires Delivers(env, from) && from <= later
    ensures Delivers(env, later)
  {
  }

  /** In these calls the server never makes the same id up twice for a kind. */
  ghost predicate NumbersOnce(env: Environment, from: nat, until: nat) {
    forall m, n, kind | from <= m < n < until ::
      Get(MadeUp(kind, env.choice(m)), Id) != Get(MadeUp(kind, env.choice(n)), Id)
  }

  /** Nor one that an object already has. */
  ghost predicate Unclaimed(env: Environment, from: nat, until: nat, objects: seq<Entry>) {
    forall n, i | from <= n < until && 0 <= i < |objects| :: IdFree(objects[i], env.choice(n))
  }

  predicate IdFree(e: Entry, c: Choice) { Get(e.rep, Id) != Get(MadeUp(e.kind, c), Id) }

  ghost predicate Numbered(env: Environment, from: nat, until: nat, s: State, realm: Text) {
    NumbersOnce(env, from, until) && realm in s && Unclaimed(env, from, until, s[realm].objects)
  }

  lemma NumberedLater(env: Environment, from: nat, later: nat, until: nat, s: State, realm: Text)
    requires Numbered(env, from, until, s, realm) && from <= later
    ensures Numbered(env, later, until, s, realm)
  {
  }

  /** Whatever it creates, it creates as the reconciler expects it. */
  ghost predicate CreatesProperly(env: Environment) {
    forall n: nat :: Proper(env.choice(n))
  }

  /** The realm is there under its name and every managed object can be planned. */
  predicate PlanPossible(s: State, realm: Text, items: seq<Item>) {
    realm in s && RealmOk(s[realm].rep, realm) && Plannable(s[realm].objects, realm, items)
  }

  /** A realm that is there can be planned; a missing one may be bootstrapped. */
  predicate Startable(s: State, realm: Text, items: seq<Item>, bootstrap: bool) {
    if realm in s then PlanPossible(s, realm, items) else bootstrap
  }

  /** A realm as the server bootstraps it. */
  function NewRealm(c: Choice, realm: Text): Realm {
    Realm(c.realm.rep + map[RealmName := Str(realm)], c.realm.objects)
  }

  /** The realm this call would bootstrap can be planned, and its ids are not made up again. */
  ghost predicate BootsWell(env: Environment, n: nat, until: nat, realm: Text, items: seq<Item>) {
    && PlanPossible(map[realm := NewRealm(env.choice(n), realm)], realm, items)
    && Unclaimed(env, n + 1, until, env.choice(n).realm.objects)
  }

  /** The ids to come are new, to each other and to the realm, be it there or yet to be bootstrapped. */
  ghost predicate Fresh(env: Environment, from: nat, until: nat, s: State, realm: Text, items: seq<Item>) {
    && NumbersOnce(env, from, until)
    && if realm in s then Unclaimed(env, from, until, s[realm].objects)
       else forall n | from <= n < until :: BootsWell(env, n, until, realm, items)
  }

  lemma FreshIsNumbered(env: Environment, from: nat, until: nat, s: State, realm: Text, items: seq<Item>)
    requires realm in s
    ensures Fresh(env, from, until, s, realm, items) <==> Numbered(env, from, until, s, realm)
  {
  }

  lemma FreshLater(env: Environment, from: nat, later: nat, until: nat, s: State, realm: Text, items: seq<Item>)
    requires Fresh(env, from, until, s, realm, items) && from <= later
    ensures Fresh(env, later, until, s, realm, items)
  {
  }

  /** Bootstrapping keeps the ids to come new and leaves a realm that can be planned. */
  lemma BootedIsFresh(env: Environment, from: nat, later: nat, until: nat, s: State, realm: Text, items: seq<Item>)
    requires realm !in s && Fresh(env, from, until, s, realm, items) && from + 2 <= later <= until
    ensures var t := Serve(s, BootstrapRequest(realm), env.choice(from + 1)).state;
      Fresh(env, later, until, t, realm, items) && PlanPossible(t, realm, items)
  {
    assert BootsWell(env, from + 1, until, realm, items);
  }

  lemma NoPlanWithoutRealm(s: State, realm: Text, settings: Rep, items: seq<Item>, ws: seq<Write>)
    requires realm !in s
    ensures !FollowsPlan(s, realm, settings, items, ws, false)
  {
  }

  /** What a cut run of a proper server leaves can be started from again. */
  lemma RunStaysStartable(env: Environment, from: nat, until: nat, s: State, realm: Text, settings: Rep,
      items: seq<Item>, run: RunLog, bootstrap: bool)
    requires WellFormedRealm(s, realm) && ItemsOk(items) && SettingsOk(settings)
    requires Startable(s, realm, items, bootstrap) && Fresh(env, from, until, s, realm, items)
    requires IsRun(s, realm, settings, items, run, false) && AllProper(run.writes)
    requires run.boot.Some? ==> from + 2 <= until && run.boot.value.choice == env.choice(from + 1)
    ensures Startable(AfterRun(s, run), realm, items, bootstrap)
  {
    hide WellFormed, Plannable, RealmOk, Fresh, FollowsPlan;
    var b, rest := Booted(s, run), RunLog(None, run.writes);
    if run.boot.Some? { BootedIsFresh(env, from, from + 2, until, s, realm, items); }
    if realm in b {
      BootIsFramed(s, realm, settings, items, run);
      assert Booted(b, rest) == b;
      RunStaysPlannable(b, realm, settings, items, rest, false);
    } else {
      NoPlanWithoutRealm(b, realm, settings, items, run.writes);
    }
  }

  /** A write that supplies no id leaves the ids to come new. */
  lemma ServeKeepsNumbered(env: Environment, from: nat, until: nat, n: nat, s: State, realm: Text, q: Request)
    requires Numbered(env, from, until, s, realm) && from <= n < until && Id !in q.body
    ensures Numbered(env, n + 1, until, Serve(s, q, env.choice(n)).state, realm)
  {
    var c, t := env.choice(n), Serve(s, q, env.choice(n)).state;
    forall m, i | n + 1 <= m < until && 0 <= i < |t[realm].objects| ensures IdFree(t[realm].objects[i], env.choice(m)) {
      var e := t[realm].objects[i];
      if i < |s[realm].objects| {
        assert e.kind == s[realm].objects[i].kind && Get(e.rep, Id) == Get(s[realm].objects[i].rep, Id);
        assert IdFree(s[realm].objects[i], env.choice(m));
      } else {
        assert Get(e.rep, Id) == Get(MadeUp(e.kind, c), Id);
      }
    }
  }

  lemma {:induction false} HitIsFound(objects: seq<Entry>, kind: Kind, key: Key, p: nat)
    requires p < |objects| && Hit(objects[p], kind, key)
    ensures Find(objects, kind, key).Some?
  {
    if p > 0 { HitIsFound(objects[1..], kind, key, p - 1); }
  }

  /** The server accepts the write planned for an item, given a new id. */
  lemma ItemAccepted(t: State, realm: Text, it: Item, c: Choice)
    requires realm in t && WellFormed(t[realm].objects) && ItemOk(it) && PlanItem(t[realm].objects, realm, it).Some?
    requires forall i :: 0 <= i < |t[realm].objects| ==> IdFree(t[realm].objects[i], c)
    ensures var request := PlanItem(t[realm].objects, realm, it).value.request;
      request.Some? ==> Serve(t, request.value, c).response.status == ExpectedStatus(request.value.verb)
  {
    var objects, op := t[realm].objects, PlanItem(t[realm].objects, realm, it).value;
    if op.request.Some? {
      if op.change.action == CreateObject {
        var added := Entry(it.kind, MadeUp(it.kind, c) + it.desired);
        assert Get(added.rep, Id) == Get(MadeUp(it.kind, c), Id);
        forall i | 0 <= i < |objects| && objects[i].kind == it.kind
          ensures Get(objects[i].rep, Id) != Get(added.rep, Id)
          ensures Get(objects[i].rep, IdentityField(it.kind)) != Get(added.rep, IdentityField(it.kind))
        {
          assert IdFree(objects[i], c);
          if Named(objects[i], it.kind, it.name) { NamedIsMatched(objects, it.kind, it.name, i); }
        }
        assert !Conflicts(objects, added);
      } else {
        var key := MemberKey(it, Head(Matches(objects, it.kind, it.name)));
        UpdateHitsOwn(objects, realm, it);
        var p := MatchHasIndex(objects, it.kind, it.name);
        HitIsFound(objects, it.kind, key, p);
      }
    }
  }

  /** The server accepts the next write of a plan carried out so far. */
  lemma WriteAccepted(s: State, t: State, realm: Text, settings: Rep, items: seq<Item>, ops: seq<Operation>, j: nat,
      c: Choice)
    requires realm in s && ItemsOk(items) && IsPlan(s[realm], realm, settings, items, ops) && j < |ops|
    requires realm in t && After(s[realm], t[realm], settings, items, j, false) && ops[j].request.Some?
    requires forall i :: 0 <= i < |t[realm].objects| ==> IdFree(t[realm].objects[i], c)
    ensures Serve(t, ops[j].request.value, c).response.status == ExpectedStatus(ops[j].request.value.verb)
  {
    hide WellFormed, PlanItem, IdFree, ItemOk;
    if j == 0 {
      SettingsRequest(s[realm].rep, realm, settings);
    } else {
      StillPlanned(s[realm], t[realm], realm, settings, items, ops, j, false);
      ItemAccepted(t, realm, items[j - 1], c);
    }
  }

  /** No planned write supplies an id. */
  lemma WritesSupplyNoId(r: Realm, realm: Text, settings: Rep, items: seq<Item>, ops: seq<Operation>, j: nat)
    requires ItemsOk(items) && SettingsOk(settings) && IsPlan(r, realm, settings, items, ops) && j < |ops|
      && ops[j].request.Some?
    ensures Id !in ops[j].request.value.body
  {
    if j > 0 {
      assert ops[1..][j - 1] == ops[j];
      assert ItemOk(items[j - 1]);
      assert ops[j].request.value.body == items[j - 1].desired;
      assert EntryCheck(items[j - 1].kind, Id).None?;
    } else {
      assert SettingsCheck(Id).None?;
    }
  }
}
