/** The reconciler converges: sending a plan's requests, in any order, makes the active
    scenario shift types exactly the ones the operator picked, and planning again changes
    nothing. */
module ShiftConvergence {
  import opened Options
  import opened Sequences
  import opened Sorting
  import opened ShiftSync
  import opened ShiftTable

  /** `existing` lists the rows of the table, each once, in some order. */
  ghost predicate Lists(t: Table, existing: seq<Existing>)
  {
    && (forall i, j :: 0 <= i < j < |existing| ==> existing[i].id != existing[j].id)
    && (forall x :: x in existing ==> x.id in t && t[x.id].def.name == x.name && t[x.id].active == x.active)
    && (forall id :: id in t ==> exists x :: x in existing && x.id == id)
  }

  predicate UsableRoles(ids: RoleIds, roles: set<Id>)
  {
    ids.senior != ids.junior && ids.senior in roles && ids.junior in roles
  }

  predicate ScenarioRequest(r: Request, ids: RoleIds)
  {
    exists g, p :: r == RequestFor(g, p, ids)
  }

  predicate ScenarioNamed(name: string) { exists g, p :: name == NameOf(g, p) }

  // ----- lookups -----

  lemma {:induction false} FindExistingFinds(existing: seq<Existing>, name: string)
    ensures FindExisting(existing, name).Some? ==>
      FindExisting(existing, name).value in existing && FindExisting(existing, name).value.name == name
    ensures FindExisting(existing, name) == None ==> forall x :: x in existing ==> x.name != name
  {
    if existing != [] {
      var n := |existing| - 1;
      FindExistingFinds(existing[..n], name);
      assert existing == existing[..n] + [existing[n]];
    }
  }

  lemma {:induction false} FindRequestFinds(requests: seq<Request>, name: string)
    ensures FindRequest(requests, name).Some? ==>
      FindRequest(requests, name).value in requests && FindRequest(requests, name).value.name == name
    ensures FindRequest(requests, name) == None ==> forall r :: r in requests ==> r.name != name
  {
    if requests != [] {
      var n := |requests| - 1;
      FindRequestFinds(requests[..n], name);
      assert requests == requests[..n] + [requests[n]];
    }
  }

  lemma {:induction false} CreatesMembers(desired: seq<Request>, existing: seq<Existing>, r: Request)
    ensures r in Creates(desired, existing) <==> r in desired && FindExisting(existing, r.name) == None
  {
    if desired != [] {
      var n := |desired| - 1;
      CreatesMembers(desired[..n], existing, r);
      assert desired == desired[..n] + [desired[n]];
    }
  }

  ghost predicate KeepsOne(u: Update, r: Request, existing: seq<Existing>)
  {
    FindExisting(existing, r.name).Some? && u == Update(FindExisting(existing, r.name).value.id, r, true)
  }

  lemma {:induction false} KeepsMembers(desired: seq<Request>, existing: seq<Existing>, u: Update)
    ensures u in Keeps(desired, existing) <==> u.request in desired && KeepsOne(u, u.request, existing)
  {
    if desired != [] {
      var n := |desired| - 1;
      KeepsMembers(desired[..n], existing, u);
      assert desired == desired[..n] + [desired[n]];
    }
  }

  lemma {:induction false} DropsMembers(existing: seq<Existing>, desired: seq<Request>, scenario: seq<Request>,
                                        u: Update)
    ensures u in Drops(existing, desired, scenario) <==>
      exists x :: x in existing && u in DropOf(x, desired, scenario)
  {
    if existing != [] {
      var n := |existing| - 1;
      DropsMembers(existing[..n], desired, scenario, u);
      assert existing == existing[..n] + [existing[n]];
    }
  }

  // ----- each item of a plan once -----

  ghost predicate NamesOnce(requests: seq<Request>)
  {
    forall i, j :: 0 <= i < j < |requests| ==> requests[i].name != requests[j].name
  }

  lemma {:induction false} CreatesOnce(desired: seq<Request>, existing: seq<Existing>)
    requires NamesOnce(desired)
    ensures NoDuplicates(Creates(desired, existing))
  {
    if desired != [] {
      var n := |desired| - 1;
      CreatesOnce(desired[..n], existing);
      var front := Creates(desired[..n], existing);
      var last := if FindExisting(existing, desired[n].name) == None then [desired[n]] else [];
      forall r | r in front ensures r !in last {
        CreatesMembers(desired[..n], existing, r);
        var i :| 0 <= i < n && desired[i] == r;
        assert desired[i].name != desired[n].name;
      }
      NoDuplicatesJoin(front, last);
    }
  }

  lemma {:induction false} KeepsOnce(desired: seq<Request>, existing: seq<Existing>)
    requires NamesOnce(desired)
    ensures NoDuplicates(Keeps(desired, existing))
  {
    if desired != [] {
      var n := |desired| - 1;
      KeepsOnce(desired[..n], existing);
      forall u | u in Keeps(desired[..n], existing) ensures u.request != desired[n] {
        KeepsMembers(desired[..n], existing, u);
      }
    }
  }

  lemma {:induction false} DropsOnce(existing: seq<Existing>, desired: seq<Request>, scenario: seq<Request>)
    requires forall i, j :: 0 <= i < j < |existing| ==> existing[i].id != existing[j].id
    ensures NoDuplicates(Drops(existing, desired, scenario))
  {
    if existing != [] {
      var n := |existing| - 1;
      DropsOnce(existing[..n], desired, scenario);
      forall u | u in Drops(existing[..n], desired, scenario) ensures u.id != existing[n].id {
        DropsMembers(existing[..n], desired, scenario, u);
        var x :| x in existing[..n] && u in DropOf(x, desired, scenario);
        var i :| 0 <= i < n && existing[i] == x;
      }
    }
  }

  lemma DesiredFacts(c: Coverage, ids: RoleIds)
    ensures NamesOnce(Desired(c, ids))
    ensures forall r :: r in Desired(c, ids) ==> ScenarioRequest(r, ids)
  {
    forall i, j | 0 <= i < j < |Desired(c, ids)| ensures Desired(c, ids)[i].name != Desired(c, ids)[j].name {
      DesiredNamesDiffer(c, ids, i, j);
    }
    forall r | r in Desired(c, ids) ensures ScenarioRequest(r, ids) {
      DesiredMembers(c, ids, r);
    }
  }

  lemma PlanHasNoRepeats(t: Table, c: Coverage, ids: RoleIds, existing: seq<Existing>)
    requires Lists(t, existing)
    ensures NoDuplicates(PlanFor(c, ids, existing).creates)
    ensures NoDuplicates(PlanFor(c, ids, existing).updates)
  {
    var desired, scenario := Desired(c, ids), Desired(FULL_COVERAGE, ids);
    DesiredFacts(c, ids);
    CreatesOnce(desired, existing);
    KeepsOnce(desired, existing);
    DropsOnce(existing, desired, scenario);
    forall u | u in Keeps(desired, existing) ensures u !in Drops(existing, desired, scenario) {
      KeepsMembers(desired, existing, u);
      DropsMembers(existing, desired, scenario, u);
    }
    NoDuplicatesJoin(Keeps(desired, existing), Drops(existing, desired, scenario));
  }

  // ----- what an update is -----

  /** The row a desired name belongs to, kept; or an active scenario row nobody picked, dropped. */
  lemma UpdateIs(t: Table, c: Coverage, ids: RoleIds, existing: seq<Existing>, u: Update)
    requires Lists(t, existing) && u in PlanFor(c, ids, existing).updates
    ensures ScenarioRequest(u.request, ids) && ScenarioNamed(u.request.name)
    ensures u.id in t && t[u.id].def.name == u.request.name
    ensures u.active ==> u.request in Desired(c, ids)
    ensures !u.active ==> (forall r :: r in Desired(c, ids) ==> r.name != u.request.name)
  {
    var desired, scenario := Desired(c, ids), Desired(FULL_COVERAGE, ids);
    DesiredFacts(c, ids);
    DesiredFacts(FULL_COVERAGE, ids);
    KeepsMembers(desired, existing, u);
    DropsMembers(existing, desired, scenario, u);
    if u in Keeps(desired, existing) {
      FindExistingFinds(existing, u.request.name);
    } else {
      var x :| x in existing && u in DropOf(x, desired, scenario);
      FindRequestFinds(desired, x.name);
      FindRequestFinds(scenario, x.name);
    }
  }

  lemma CreateIs(t: Table, c: Coverage, ids: RoleIds, existing: seq<Existing>, r: Request)
    requires Lists(t, existing) && r in PlanFor(c, ids, existing).creates
    ensures r in Desired(c, ids) && ScenarioRequest(r, ids)
    ensures forall id :: id in t ==> t[id].def.name != r.name
  {
    CreatesMembers(Desired(c, ids), existing, r);
    DesiredFacts(c, ids);
    FindExistingFinds(existing, r.name);
  }

  lemma SameNameSameRequest(c: Coverage, ids: RoleIds, r: Request, s: Request)
    requires ScenarioRequest(r, ids) && ScenarioRequest(s, ids) && r.name == s.name
    ensures r == s
  {
    var g, p :| r == RequestFor(g, p, ids);
    var h, q :| s == RequestFor(h, q, ids);
    NamesDiffer(g, p, h, q);
  }

  /** A plan updates each existing shift type at most once, and creates each name at most once. */
  lemma PlanOnce(t: Table, c: Coverage, ids: RoleIds, existing: seq<Existing>)
    requires Lists(t, existing)
    ensures
      var updates := PlanFor(c, ids, existing).updates;
      forall i, j :: 0 <= i < j < |updates| ==> updates[i].id != updates[j].id
    ensures NamesOnce(PlanFor(c, ids, existing).creates)
  {
    var plan := PlanFor(c, ids, existing);
    PlanHasNoRepeats(t, c, ids, existing);
    forall i, j | 0 <= i < j < |plan.updates| ensures plan.updates[i].id != plan.updates[j].id {
      var u, v := plan.updates[i], plan.updates[j];
      assert u in plan.updates && v in plan.updates && u != v;
      UpdateIs(t, c, ids, existing, u);
      UpdateIs(t, c, ids, existing, v);
      if u.request.name == v.request.name {
        SameNameSameRequest(c, ids, u.request, v.request);
      }
    }
    forall i, j | 0 <= i < j < |plan.creates| ensures plan.creates[i].name != plan.creates[j].name {
      var r, s := plan.creates[i], plan.creates[j];
      assert r in plan.creates && s in plan.creates && r != s;
      CreateIs(t, c, ids, existing, r);
      CreateIs(t, c, ids, existing, s);
      if r.name == s.name {
        SameNameSameRequest(c, ids, r, s);
      }
    }
  }

  // ----- sending the plan -----

  datatype Item = ToCreate(request: Request, active: bool) | ToUpdate(update: Update)

  function ItemOf(c: Call): Item { if c.Post? then ToCreate(c.request, c.active) else ToUpdate(c.update) }

  ghost function CallItem(): Call -> Item { (c: Call) => ItemOf(c) }

  /** A planned create does not say whether the row is active, which means that it is. */
  ghost function CreateItem(): Request -> Item { (r: Request) => ToCreate(r, true) }

  ghost function UpdateItem(): Update -> Item { (u: Update) => ToUpdate(u) }

  ghost function ItemsOf(plan: Plan): seq<Item>
  {
    Map(UpdateItem(), plan.updates) + Map(CreateItem(), plan.creates)
  }

  /** The calls send each item of the plan once, in any order; new rows get new ids. */
  ghost predicate Sends(t: Table, plan: Plan, calls: seq<Call>)
  {
    && multiset(Map(CallItem(), calls)) == multiset(ItemsOf(plan))
    && (forall i :: 0 <= i < |calls| && calls[i].Post? ==> calls[i].id !in t)
    && (forall i, j :: 0 <= i < j < |calls| && calls[i].Post? && calls[j].Post? ==> calls[i].id != calls[j].id)
  }

  lemma ItemsMembers(plan: Plan, x: Item)
    ensures x in ItemsOf(plan) <==>
      (x.ToCreate? && x.active && x.request in plan.creates) || (x.ToUpdate? && x.update in plan.updates)
  {
    var us, cs := Map(UpdateItem(), plan.updates), Map(CreateItem(), plan.creates);
    if x.ToUpdate? && x.update in plan.updates {
      var i :| 0 <= i < |plan.updates| && plan.updates[i] == x.update;
      assert us[i] == x;
    }
    if x.ToCreate? && x.active && x.request in plan.creates {
      var i :| 0 <= i < |plan.creates| && plan.creates[i] == x.request;
      assert cs[i] == x;
    }
  }

  lemma ItemsOnce(plan: Plan)
    requires NoDuplicates(plan.creates) && NoDuplicates(plan.updates)
    ensures NoDuplicates(ItemsOf(plan))
  {
    NoDuplicatesJoin(Map(UpdateItem(), plan.updates), Map(CreateItem(), plan.creates));
  }

  lemma CallsMembers(t: Table, plan: Plan, calls: seq<Call>)
    requires Sends(t, plan, calls)
    ensures forall c :: c in calls ==> ItemOf(c) in ItemsOf(plan)
    ensures forall x :: x in ItemsOf(plan) ==> exists c :: c in calls && ItemOf(c) == x
  {
    var items := Map(CallItem(), calls);
    SameMembers(items, ItemsOf(plan));
    forall c | c in calls ensures ItemOf(c) in ItemsOf(plan) {
      var i :| 0 <= i < |calls| && calls[i] == c;
      assert items[i] == ItemOf(c);
    }
    forall x | x in ItemsOf(plan) ensures exists c :: c in calls && ItemOf(c) == x {
      assert x in items;
      var i :| 0 <= i < |items| && items[i] == x;
      assert ItemOf(calls[i]) == x;
    }
  }

  lemma ScenarioRequestIsValid(r: Request, ids: RoleIds, roles: set<Id>)
    requires UsableRoles(ids, roles) && ScenarioRequest(r, ids)
    ensures ValidRequest(r, roles)
  {
  }

  /** What the plan has to say about the row a call is for. */
  lemma CallIs(t: Table, c: Coverage, ids: RoleIds, existing: seq<Existing>, calls: seq<Call>, x: Call)
    requires Lists(t, existing) && Sends(t, PlanFor(c, ids, existing), calls) && x in calls
    ensures ScenarioRequest(Sent(x), ids)
    ensures x.Post? ==> x.active && Sent(x) in Desired(c, ids) && x.id !in t && !NameTaken(t, x.request.name, x.id)
    ensures x.Patch? ==> x.update.id in t && t[x.update.id].def.name == x.update.request.name
    ensures x.Patch? && x.update.active ==> Sent(x) in Desired(c, ids)
    ensures x.Patch? && !x.update.active ==> forall r :: r in Desired(c, ids) ==> r.name != Sent(x).name
  {
    var plan := PlanFor(c, ids, existing);
    CallsMembers(t, plan, calls);
    ItemsMembers(plan, ItemOf(x));
    if x.Post? {
      CreateIs(t, c, ids, existing, x.request);
    } else {
      UpdateIs(t, c, ids, existing, x.update);
    }
  }

  /** Two calls with one name are one item. */
  lemma SameNameSameItem(t: Table, c: Coverage, ids: RoleIds, existing: seq<Existing>, calls: seq<Call>,
                         x: Call, y: Call)
    requires UniqueNames(t) && Lists(t, existing) && Sends(t, PlanFor(c, ids, existing), calls)
    requires x in calls && y in calls && Sent(x).name == Sent(y).name
    ensures ItemOf(x) == ItemOf(y)
  {
    CallIs(t, c, ids, existing, calls, x);
    CallIs(t, c, ids, existing, calls, y);
    SameNameSameRequest(c, ids, Sent(x), Sent(y));
    assert x.Patch? && Target(x) != Target(y) ==> NameTaken(t, Sent(x).name, Target(y));
    assert y.Patch? && Target(x) != Target(y) ==> NameTaken(t, Sent(y).name, Target(x));
  }

  lemma PlanIsCompatible(t: Table, c: Coverage, ids: RoleIds, roles: set<Id>, existing: seq<Existing>, calls: seq<Call>)
    requires UniqueNames(t) && Lists(t, existing) && UsableRoles(ids, roles)
    requires Sends(t, PlanFor(c, ids, existing), calls)
    ensures Compatible(t, roles, calls)
  {
    var plan := PlanFor(c, ids, existing);
    PlanHasNoRepeats(t, c, ids, existing);
    ItemsOnce(plan);
    RearrangedDistinct(ItemsOf(plan), Map(CallItem(), calls));
    var items := Map(CallItem(), calls);
    forall x | x in calls
      ensures ValidRequest(Sent(x), roles)
      ensures x.Post? ==> x.id !in t && !NameTaken(t, x.request.name, x.id)
      ensures x.Patch? ==> x.update.id in t && t[x.update.id].def.name == x.update.request.name
    {
      CallIs(t, c, ids, existing, calls, x);
      ScenarioRequestIsValid(Sent(x), ids, roles);
    }
    forall i, j | 0 <= i < j < |calls|
      ensures Target(calls[i]) != Target(calls[j]) && Sent(calls[i]).name != Sent(calls[j]).name
    {
      assert calls[i] in calls && calls[j] in calls && items[i] != items[j];
      if Sent(calls[i]).name == Sent(calls[j]).name {
        SameNameSameItem(t, c, ids, existing, calls, calls[i], calls[j]);
      }
    }
  }

  // ----- convergence -----

  /** The active scenario shift types are exactly the picked ones, as the scenario defines them. */
  ghost predicate Reconciled(t: Table, c: Coverage, ids: RoleIds)
  {
    && (forall id :: id in t && t[id].active && ScenarioNamed(t[id].def.name) ==>
          exists r :: r in Desired(c, ids) && t[id].def == StoredAs(r))
    && (forall r :: r in Desired(c, ids) ==> exists id :: id in t && t[id] == Row(StoredAs(r), true))
  }

  lemma FullCoverageNamesAll(ids: RoleIds, name: string)
    ensures ScenarioNamed(name) <==> FindRequest(Desired(FULL_COVERAGE, ids), name).Some?
  {
    var scenario := Desired(FULL_COVERAGE, ids);
    FindRequestFinds(scenario, name);
    if FindRequest(scenario, name).Some? {
      DesiredMembers(FULL_COVERAGE, ids, FindRequest(scenario, name).value);
    }
    if g, p :| name == NameOf(g, p) {
      assert Picked(FULL_COVERAGE, g, p) by {
        SelectedMembers(ALL_PRESETS);
        EveryPreset(p);
      }
      DesiredMembers(FULL_COVERAGE, ids, RequestFor(g, p, ids));
    }
  }

  /** The plan updates every active scenario row. */
  lemma ActiveScenarioIsUpdated(t: Table, c: Coverage, ids: RoleIds, existing: seq<Existing>, id: Id)
    requires UniqueNames(t) && Lists(t, existing)
    requires id in t && t[id].active && ScenarioNamed(t[id].def.name)
    ensures exists u :: u in PlanFor(c, ids, existing).updates && u.id == id
  {
    var desired, scenario := Desired(c, ids), Desired(FULL_COVERAGE, ids);
    var x :| x in existing && x.id == id;
    FullCoverageNamesAll(ids, x.name);
    var picked := FindRequest(desired, x.name);
    var u;
    if picked == None {
      u := Update(id, FindRequest(scenario, x.name).value, false);
      assert u in DropOf(x, desired, scenario);
      DropsMembers(existing, desired, scenario, u);
    } else {
      u := Update(id, picked.value, true);
      FindRequestFinds(desired, x.name);
      FindExistingFinds(existing, x.name);
      KeepsMembers(desired, existing, u);
    }
    assert u in PlanFor(c, ids, existing).updates;
  }

  lemma ActiveScenarioIsTouched(t: Table, c: Coverage, ids: RoleIds, existing: seq<Existing>, calls: seq<Call>, id: Id)
    requires UniqueNames(t) && Lists(t, existing) && Sends(t, PlanFor(c, ids, existing), calls)
    requires id in t && t[id].active && ScenarioNamed(t[id].def.name)
    ensures exists x :: x in calls && Target(x) == id
  {
    var plan := PlanFor(c, ids, existing);
    ActiveScenarioIsUpdated(t, c, ids, existing, id);
    var u :| u in plan.updates && u.id == id;
    ItemsMembers(plan, ToUpdate(u));
    CallsMembers(t, plan, calls);
    var x :| x in calls && ItemOf(x) == ToUpdate(u);
    assert Target(x) == id;
  }

  lemma NothingElseActive(t: Table, c: Coverage, ids: RoleIds, roles: set<Id>, existing: seq<Existing>,
                          calls: seq<Call>, id: Id)
    requires UniqueNames(t) && Lists(t, existing) && UsableRoles(ids, roles)
    requires Sends(t, PlanFor(c, ids, existing), calls)
    requires id in AfterAll(t, roles, calls) && AfterAll(t, roles, calls)[id].active
    requires ScenarioNamed(AfterAll(t, roles, calls)[id].def.name)
    ensures exists r :: r in Desired(c, ids) && AfterAll(t, roles, calls)[id].def == StoredAs(r)
  {
    PlanIsCompatible(t, c, ids, roles, existing, calls);
    CompatibleCallsOverlay(t, roles, calls, id);
    if id in t && t[id].active && ScenarioNamed(t[id].def.name) {
      ActiveScenarioIsTouched(t, c, ids, existing, calls, id);
    }
    var x :| x in calls && Target(x) == id;
    CallIs(t, c, ids, existing, calls, x);
  }

  lemma EveryPickedIsActive(t: Table, c: Coverage, ids: RoleIds, roles: set<Id>, existing: seq<Existing>,
                            calls: seq<Call>, r: Request)
    requires UniqueNames(t) && Lists(t, existing) && UsableRoles(ids, roles)
    requires Sends(t, PlanFor(c, ids, existing), calls) && r in Desired(c, ids)
    ensures exists id :: id in AfterAll(t, roles, calls) && AfterAll(t, roles, calls)[id] == Row(StoredAs(r), true)
  {
    PlanIsCompatible(t, c, ids, roles, existing, calls);
    CallsMembers(t, PlanFor(c, ids, existing), calls);
    var item := PickedItem(c, ids, existing, r);
    var x :| x in calls && ItemOf(x) == item;
    assert RowOf(x) == Row(StoredAs(r), true);
    CompatibleCallsOverlay(t, roles, calls, Target(x));
  }

  /** Every desired request is an item of the plan. */
  lemma PickedItem(c: Coverage, ids: RoleIds, existing: seq<Existing>, r: Request) returns (item: Item)
    requires r in Desired(c, ids)
    ensures item in ItemsOf(PlanFor(c, ids, existing))
    ensures if item.ToCreate? then item == ToCreate(r, true) else item.update.request == r && item.update.active
  {
    var found := FindExisting(existing, r.name);
    if found == None {
      CreatesMembers(Desired(c, ids), existing, r);
      item := ToCreate(r, true);
    } else {
      KeepsMembers(Desired(c, ids), existing, Update(found.value.id, r, true));
      item := ToUpdate(Update(found.value.id, r, true));
    }
    ItemsMembers(PlanFor(c, ids, existing), item);
  }

  /** Sending the plan, in any order: every request is accepted, the active scenario shift
      types become exactly the picked ones, every other shift type stays as it was, and no
      row disappears. */
  lemma SendingThePlanReconciles(t: Table, c: Coverage, ids: RoleIds, roles: set<Id>, existing: seq<Existing>,
                                 calls: seq<Call>)
    requires UniqueNames(t) && Lists(t, existing) && UsableRoles(ids, roles)
    requires Sends(t, PlanFor(c, ids, existing), calls)
    ensures AllAccepted(t, roles, calls)
    ensures
      var after := AfterAll(t, roles, calls);
      && UniqueNames(after) && Reconciled(after, c, ids)
      && (forall id :: id in t ==> id in after)
      && (forall id :: id in t && !ScenarioNamed(t[id].def.name) ==> after[id] == t[id])
      && (forall id :: id in after && id !in t ==> ScenarioNamed(after[id].def.name))
  {
    var after := AfterAll(t, roles, calls);
    PlanIsCompatible(t, c, ids, roles, existing, calls);
    CompatibleCallsAccepted(t, roles, calls);
    forall id | id in after && after[id].active && ScenarioNamed(after[id].def.name)
      ensures exists r :: r in Desired(c, ids) && after[id].def == StoredAs(r)
    {
      NothingElseActive(t, c, ids, roles, existing, calls, id);
    }
    forall r | r in Desired(c, ids) ensures exists id :: id in after && after[id] == Row(StoredAs(r), true) {
      EveryPickedIsActive(t, c, ids, roles, existing, calls, r);
    }
    forall id
      ensures id in t ==> id in after
      ensures id in t && !ScenarioNamed(t[id].def.name) ==> after[id] == t[id]
      ensures id in after && id !in t ==> ScenarioNamed(after[id].def.name)
    {
      OtherRows(t, c, ids, roles, existing, calls, id);
    }
  }

  lemma OtherRows(t: Table, c: Coverage, ids: RoleIds, roles: set<Id>, existing: seq<Existing>,
                  calls: seq<Call>, id: Id)
    requires UniqueNames(t) && Lists(t, existing) && Compatible(t, roles, calls)
    requires Sends(t, PlanFor(c, ids, existing), calls)
    ensures
      var after := AfterAll(t, roles, calls);
      && (id in t ==> id in after)
      && (id in t && !ScenarioNamed(t[id].def.name) ==> after[id] == t[id])
      && (id in after && id !in t ==> ScenarioNamed(after[id].def.name))
  {
    CompatibleCallsOverlay(t, roles, calls, id);
    forall x | x in calls ensures ScenarioNamed(Sent(x).name) && (x.Patch? ==> t[Target(x)].def.name == Sent(x).name) {
      CallIs(t, c, ids, existing, calls, x);
    }
  }

  /** Planning again over a reconciled table creates nothing, deactivates nothing, and only
      sends back what is already stored. */
  lemma ReplanningIsIdle(t: Table, c: Coverage, ids: RoleIds, existing: seq<Existing>)
    requires UniqueNames(t) && Reconciled(t, c, ids) && Lists(t, existing)
    ensures PlanFor(c, ids, existing).creates == []
    ensures forall u :: u in PlanFor(c, ids, existing).updates ==>
      u.active && u.id in t && t[u.id] == Row(StoredAs(u.request), u.active)
  {
    var plan := PlanFor(c, ids, existing);
    if plan.creates != [] {
      CreateIs(t, c, ids, existing, plan.creates[0]);
      assert false;
    }
    forall u | u in plan.updates ensures u.active && u.id in t && t[u.id] == Row(StoredAs(u.request), u.active) {
      ReplannedUpdate(t, c, ids, existing, u);
    }
  }

  lemma ReplannedUpdate(t: Table, c: Coverage, ids: RoleIds, existing: seq<Existing>, u: Update)
    requires UniqueNames(t) && Reconciled(t, c, ids) && Lists(t, existing)
    requires u in PlanFor(c, ids, existing).updates
    ensures u.active && u.id in t && t[u.id] == Row(StoredAs(u.request), u.active)
  {
    UpdateIs(t, c, ids, existing, u);
    if u.active {
      var id :| id in t && t[id] == Row(StoredAs(u.request), true);
      assert t[id].def.name == t[u.id].def.name;
    } else {
      DroppedWasActive(t, c, ids, existing, u);
      assert false;
    }
  }

  lemma DroppedWasActive(t: Table, c: Coverage, ids: RoleIds, existing: seq<Existing>, u: Update)
    requires Lists(t, existing) && u in PlanFor(c, ids, existing).updates && !u.active
    ensures u.id in t && t[u.id].active
  {
    var desired, scenario := Desired(c, ids), Desired(FULL_COVERAGE, ids);
    KeepsMembers(desired, existing, u);
    DropsMembers(existing, desired, scenario, u);
    var x :| x in existing && u in DropOf(x, desired, scenario);
  }
}
