/** A linear integer model: bounded variables, linear constraints and a linear
    objective. This is the part of the CP-SAT interface that the scheduler uses. */
module LinearModel {
  import opened Sequences

  datatype Term<V> = Term(coef: int, v: V)

  /** The sum of `coef * v` over the terms, plus a constant. */
  datatype Expr<V> = Expr(terms: seq<Term<V>>, constant: int)

  datatype Constraint<V> =
    | AtMost(l: Expr<V>, r: Expr<V>)
    | AtLeast(l: Expr<V>, r: Expr<V>)
    | Equal(l: Expr<V>, r: Expr<V>)

  datatype Decl<V> = Decl(v: V, lo: int, hi: int)

  datatype Model<V> = Model(decls: seq<Decl<V>>, constraints: seq<Constraint<V>>, objective: seq<Term<V>>)

  function EmptyModel<V>(): Model<V> { Model([], [], []) }

  function Plus<V>(a: Model<V>, b: Model<V>): Model<V>
  {
    Model(a.decls + b.decls, a.constraints + b.constraints, a.objective + b.objective)
  }

  // ----- expressions -----

  function Of<V>(v: V): Expr<V> { Expr([Term(1, v)], 0) }

  function Scaled<V>(coef: int, v: V): Expr<V> { Expr([Term(coef, v)], 0) }

  function Const<V>(c: int): Expr<V> { Expr([], c) }

  function Add<V>(a: Expr<V>, b: Expr<V>): Expr<V>
  {
    Expr(a.terms + b.terms, a.constant + b.constant)
  }

  /** The plain sum of a list of variables. */
  function SumOf<V>(vs: seq<V>): Expr<V>
  {
    Expr(seq(|vs|, i requires 0 <= i < |vs| => Term(1, vs[i])), 0)
  }

  // ----- meaning -----

  ghost function Terms<V>(val: V -> int, ts: seq<Term<V>>): int
  {
    if ts == [] then 0
    else
      var n := |ts| - 1;
      Terms(val, ts[..n]) + ts[n].coef * val(ts[n].v)
  }

  ghost function Value<V>(val: V -> int, e: Expr<V>): int
  {
    Terms(val, e.terms) + e.constant
  }

  ghost predicate Holds<V>(val: V -> int, c: Constraint<V>)
  {
    match c
    case AtMost(l, r) => Value(val, l) <= Value(val, r)
    case AtLeast(l, r) => Value(val, l) >= Value(val, r)
    case Equal(l, r) => Value(val, l) == Value(val, r)
  }

  ghost predicate InBounds<V>(val: V -> int, d: Decl<V>) { d.lo <= val(d.v) <= d.hi }

  ghost predicate Satisfies<V>(val: V -> int, m: Model<V>)
  {
    && (forall d :: d in m.decls ==> InBounds(val, d))
    && (forall c :: c in m.constraints ==> Holds(val, c))
  }

  ghost function Objective<V>(val: V -> int, m: Model<V>): int { Terms(val, m.objective) }

  // ----- compositionality -----

  lemma {:induction false} TermsConcat<V>(val: V -> int, a: seq<Term<V>>, b: seq<Term<V>>)
    ensures Terms(val, a + b) == Terms(val, a) + Terms(val, b)
  {
    if b == [] {
      assert a + b == a;
    } else {
      var n := |b| - 1;
      TermsConcat(val, a, b[..n]);
      assert (a + b)[..|a| + n] == a + b[..n];
    }
  }

  lemma OneTerm<V>(val: V -> int, coef: int, v: V)
    ensures Terms(val, [Term(coef, v)]) == coef * val(v)
  {
    assert [Term(coef, v)][..0] == [];
  }

  lemma ValueOfParts<V>(val: V -> int)
    ensures forall v :: Value(val, Of(v)) == val(v)
    ensures forall k, v :: Value(val, Scaled(k, v)) == k * val(v)
    ensures forall c :: Value(val, Const(c)) == c
    ensures forall a, b :: Value(val, Add(a, b)) == Value(val, a) + Value(val, b)
  {
    forall v ensures Value(val, Of(v)) == val(v) {
      OneTerm(val, 1, v);
    }
    forall k, v ensures Value(val, Scaled(k, v)) == k * val(v) {
      OneTerm(val, k, v);
    }
    forall a, b ensures Value(val, Add(a, b)) == Value(val, a) + Value(val, b) {
      TermsConcat(val, a.terms, b.terms);
    }
  }

  /** A sum of variables has the value of the sum of their values. */
  lemma {:induction false} ValueOfSum<V>(val: V -> int, vs: seq<V>)
    ensures Value(val, SumOf(vs)) == Sum(val, vs)
  {
    if vs != [] {
      var n := |vs| - 1;
      ValueOfSum(val, vs[..n]);
      assert SumOf(vs).terms[..n] == SumOf(vs[..n]).terms;
    }
  }

  lemma SatisfiesPlus<V>(val: V -> int, a: Model<V>, b: Model<V>)
    ensures Satisfies(val, Plus(a, b)) <==> Satisfies(val, a) && Satisfies(val, b)
    ensures Objective(val, Plus(a, b)) == Objective(val, a) + Objective(val, b)
  {
    TermsConcat(val, a.objective, b.objective);
    var p := Plus(a, b);
    assert forall d :: d in p.decls <==> d in a.decls || d in b.decls;
    assert forall c :: c in p.constraints <==> c in a.constraints || c in b.constraints;
  }

  /** The concatenation of the model pieces that `unit` gives for each key. */
  ghost function Family<V, K>(unit: K -> Model<V>, keys: seq<K>): Model<V>
  {
    if keys == [] then EmptyModel()
    else
      var n := |keys| - 1;
      Plus(Family(unit, keys[..n]), unit(keys[n]))
  }

  lemma FamilyStep<V, K>(unit: K -> Model<V>, keys: seq<K>, k: K)
    ensures Family(unit, keys + [k]) == Plus(Family(unit, keys), unit(k))
  {
    assert (keys + [k])[..|keys|] == keys;
  }

  ghost function ObjectiveOf<V, K>(val: V -> int, unit: K -> Model<V>): K -> int
  {
    (k: K) => Objective(val, unit(k))
  }

  /** A family is satisfied exactly when each of its pieces is, and its objective
      is the sum of theirs. */
  lemma {:induction false} SatisfiesFamily<V, K>(val: V -> int, unit: K -> Model<V>, keys: seq<K>)
    ensures Satisfies(val, Family(unit, keys)) <==> forall k :: k in keys ==> Satisfies(val, unit(k))
    ensures Objective(val, Family(unit, keys)) == Sum(ObjectiveOf(val, unit), keys)
  {
    if keys != [] {
      var n := |keys| - 1;
      SatisfiesFamily(val, unit, keys[..n]);
      SatisfiesPlus(val, Family(unit, keys[..n]), unit(keys[n]));
      assert keys == keys[..n] + [keys[n]];
    }
  }

  /** A family over a range of integers. */
  lemma SatisfiesRange<V>(val: V -> int, unit: int -> Model<V>, lo: int, hi: int)
    ensures Satisfies(val, Family(unit, Interval(lo, hi))) <==> forall j :: lo <= j < hi ==> Satisfies(val, unit(j))
    ensures Objective(val, Family(unit, Interval(lo, hi))) == Sum(ObjectiveOf(val, unit), Interval(lo, hi))
  {
    SatisfiesFamily(val, unit, Interval(lo, hi));
    IntervalMembers(lo, hi);
    if forall j :: j in Interval(lo, hi) ==> Satisfies(val, unit(j)) {
      forall j | lo <= j < hi ensures Satisfies(val, unit(j)) {
        assert j in Interval(lo, hi);
      }
    }
  }

  lemma PlusEmpty<V>(m: Model<V>)
    ensures Plus(m, EmptyModel()) == m == Plus(EmptyModel(), m)
  {
  }

  lemma PlusAssociative<V>(a: Model<V>, b: Model<V>, c: Model<V>)
    ensures Plus(Plus(a, b), c) == Plus(a, Plus(b, c))
  {
    assert a.decls + b.decls + c.decls == a.decls + (b.decls + c.decls);
    assert a.constraints + b.constraints + c.constraints == a.constraints + (b.constraints + c.constraints);
    assert a.objective + b.objective + c.objective == a.objective + (b.objective + c.objective);
  }
}
