/** Whom the rotation prefers, said without lists: by counting who and what comes first. */
module CanonicalOrder {
  import opened Options
  import opened Sequences
  import opened Sorting
  import opened Scheduling
  import opened Costs
  import opened CostFacts
  import opened Solver

  ghost function EarlierEmployees(q: Request, e: Employee): set<Employee>
  {
    set d | d in q.employees && d.id < e.id
  }

  ghost function EarlierSlots(q: Request, t: Slot): set<Slot>
  {
    set u | u in q.slots && (u.localDate < t.localDate || (u.localDate == t.localDate && u.id < t.id))
  }

  ghost function SmallerRoles(q: Request, r: Requirement): set<Id>
  {
    set t | t in q.requirements && t.roleId < r.roleId :: t.roleId
  }

  /** In a list without repetitions, an element stands where the elements before it end. */
  lemma PositionIsCount<T>(xs: seq<T>, k: nat, before: set<T>)
    requires NoDuplicates(xs) && k <= |xs|
    requires forall i :: 0 <= i < |xs| ==> (xs[i] in before <==> i < k)
    requires forall x :: x in before ==> x in xs
    ensures |before| == k
  {
    ElementsCount(xs[..k]);
    forall x | x in before ensures x in Elements(xs[..k]) {
      var i :| 0 <= i < |xs| && xs[i] == x;
      assert xs[..k][i] == x;
    }
    forall x | x in Elements(xs[..k]) ensures x in before {
      var i :| 0 <= i < k && xs[..k][i] == x;
    }
    assert before == Elements(xs[..k]);
  }

  lemma EmployeePlace(q: Request, e: Employee)
    requires WellFormed(q) && e in q.employees
    ensures Position(Canonical(q).employees, e) == |EarlierEmployees(q, e)|
  {
    var xs := Canonical(q).employees;
    CanonicalIsOrdered(q);
    SameMembers(q.employees, xs);
    SortOrdered(EmployeeLeq(), q.employees);
    PositionFinds(xs, e);
    var k := Position(xs, e);
    forall i | 0 <= i < |xs| ensures xs[i] in EarlierEmployees(q, e) <==> i < k {
      assert xs[i] in xs;
      assert i < k ==> EmployeeLeq()(xs[i], xs[k]);
      assert k < i ==> EmployeeLeq()(xs[k], xs[i]);
    }
    PositionIsCount(xs, k, EarlierEmployees(q, e));
  }

  lemma {:induction false} SlotPositionFinds(slots: seq<Slot>, id: Id)
    ensures SlotPosition(slots, id) <= |slots|
    ensures (exists t :: t in slots && t.id == id) ==>
      SlotPosition(slots, id) < |slots| && slots[SlotPosition(slots, id)].id == id
  {
    if slots != [] && slots[0].id != id {
      SlotPositionFinds(slots[1..], id);
      if t :| t in slots && t.id == id {
        assert t in slots[1..];
      }
    }
  }

  lemma SlotPlace(q: Request, t: Slot)
    requires WellFormed(q) && t in q.slots
    ensures SlotPosition(Canonical(q).slots, t.id) == |EarlierSlots(q, t)|
  {
    var xs := Canonical(q).slots;
    CanonicalIsOrdered(q);
    SameMembers(q.slots, xs);
    SlotPositionFinds(xs, t.id);
    var k := SlotPosition(xs, t.id);
    assert xs[k] == t by {
      var j :| 0 <= j < |xs| && xs[j] == t;
    }
    forall i | 0 <= i < |xs| ensures xs[i] in EarlierSlots(q, t) <==> i < k {
      assert xs[i] in xs;
      assert i < k ==> SlotBefore(xs[i], xs[k]);
      assert k < i ==> SlotBefore(xs[k], xs[i]);
    }
    PositionIsCount(xs, k, EarlierSlots(q, t));
  }

  lemma RolesAskedMembers(q: Request)
    ensures forall id :: id in RolesAsked(q) <==> exists t :: t in q.requirements && t.roleId == id
  {
    forall id: Id ensures id in RolesAsked(q) <==> exists t :: t in q.requirements && t.roleId == id {
      if id in RolesAsked(q) {
        var i :| 0 <= i < |RolesAsked(q)| && RolesAsked(q)[i] == id;
        assert q.requirements[i] in q.requirements;
      }
      if t :| t in q.requirements && t.roleId == id {
        var i :| 0 <= i < |q.requirements| && q.requirements[i] == t;
        assert RolesAsked(q)[i] == id;
      }
    }
  }

  lemma RolePlace(q: Request, r: Requirement)
    requires WellFormed(q) && r in q.requirements
    ensures Position(RoleIds(Canonical(q)), r.roleId) == |SmallerRoles(q, r)|
  {
    var p := Canonical(q);
    var xs := RoleIds(p);
    CanonicalIsOrdered(q);
    SameMembers(q.requirements, p.requirements);
    RolesAskedMembers(p);
    SortedSetIncreasing(RolesAsked(p));
    var id := r.roleId;
    assert id in RolesAsked(p) && id in xs;
    PositionFinds(xs, id);
    var k := Position(xs, id);
    forall i | 0 <= i < |xs| ensures xs[i] in SmallerRoles(q, r) <==> i < k {
      var x := xs[i];
      assert x in xs && x in RolesAsked(p);
      assert i < k ==> xs[i] < xs[k];
      assert k < i ==> xs[k] < xs[i];
    }
    forall x | x in SmallerRoles(q, r) ensures x in xs {
      assert x in RolesAsked(p);
    }
    PositionIsCount(xs, k, SmallerRoles(q, r));
  }

  lemma SameHeadcount(q: Request)
    requires WellFormed(q)
    ensures |Canonical(q).employees| == |q.employees|
  {
    CanonicalIsOrdered(q);
    SameMembers(q.employees, Canonical(q).employees);
  }

  /** The preferred employee of a requirement: as many places down the list of employees by id,
      going round, as there are slots before the requirement's slot, by date and id, and smaller
      roles asked for. */
  lemma PreferredIsCounted(q: Request, r: Requirement, t: Slot)
    requires WellFormed(q) && q.employees != [] && r in q.requirements && t in q.slots && t.id == r.slotId
    ensures PreferredEmployee(Canonical(q), r)
      == (|EarlierSlots(q, t)| + |SmallerRoles(q, r)|) % |q.employees|
  {
    SlotPlace(q, t);
    RolePlace(q, r);
    SameHeadcount(q);
  }

  /** What choosing an employee costs in the rotation: a thousand for each place after the
      preferred employee, going round, and one for each employee with a smaller id. */
  lemma RotationIsCounted(q: Request, r: Requirement, t: Slot, e: Employee)
    requires WellFormed(q) && e in q.employees && r in q.requirements && t in q.slots && t.id == r.slotId
    ensures
      var place, preferred := |EarlierEmployees(q, e)|, |EarlierSlots(q, t)| + |SmallerRoles(q, r)|;
      var steps := (place - preferred % |q.employees|) % |q.employees|;
      TieBreaker(Canonical(q), Choice(r, e)) == 1000 * steps + place
  {
    SameHeadcount(q);
    PreferredIsCounted(q, r, t);
    EmployeePlace(q, e);
    TieBreakerUnfolds(Canonical(q), Choice(r, e));
  }

  lemma TieBreakerUnfolds(q: Request, c: Choice)
    requires q.employees != []
    ensures
      var place := Position(q.employees, c.emp);
      TieBreaker(q, c) == 1000 * ((place - PreferredEmployee(q, c.req)) % |q.employees|) + place
  {
  }
}
