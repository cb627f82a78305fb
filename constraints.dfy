/** The constraint store of a computation and the frames of the Fair Scheme
    work queue.

    `eq_var` maps the aux word of a free variable to the bindings recorded
    for it; `eq_choice` maps a choice id to the ids of the choices that must
    be decided the same way. Both maps live in copy-on-write cells, so
    computations forked at a choice share a store until one of them adds a
    constraint. */
module Constraints {
  import opened Graph
  import opened CopyOnWrite

  /** The `aux_t` word: a variable's or a choice's id. */
  type Aux = nat

  /** `ConstraintStore::BindData`: a binding `first :=: second`, lazy when
      `second` is an unevaluated expression (functional patterns). */
  datatype BindData = BindData(first: Node, second: Node, isLazy: bool)

  type VarMap = map<Aux, seq<BindData>>
  type ChoiceMap = map<Aux, set<Aux>>

  /** The bindings recorded under `key`; a missing bucket is empty. */
  function Bindings(m: VarMap, key: Aux): seq<BindData> {
    if key in m then m[key] else []
  }

  /** The choices recorded as equivalent to `key`. */
  function Equivalents(m: ChoiceMap, key: Aux): set<Aux> {
    if key in m then m[key] else {}
  }

  // ---- eq_var ----

  /** `_add_one_var_constriant`: appends a binding to the bucket of `key`,
      creating the bucket on first use. */
  function AddOneVar(m: VarMap, key: Aux, b: BindData): VarMap {
    m[key := Bindings(m, key) + [b]]
  }

  /** `add_var_constraints(from, to, isLazy)` on the map, where `fromKey`
      and `toKey` are the aux words of `from` and `to`: the binding is
      recorded under `from`, and unless it is lazy the reversed binding is
      recorded under `to` as well. */
  function AddVar(m: VarMap, from: Node, to: Node, fromKey: Aux, toKey: Aux, isLazy: bool): VarMap {
    var m1 := AddOneVar(m, fromKey, BindData(from, to, isLazy));
    if isLazy then m1 else AddOneVar(m1, toKey, BindData(to, from, isLazy))
  }

  /** A normal binding is recorded in both directions, a lazy one only
      under its first variable; each bucket grows at its end, and when both
      variables share a bucket it receives both bindings, forward first. */
  lemma AddVarBuckets(m: VarMap, from: Node, to: Node, fromKey: Aux, toKey: Aux, isLazy: bool)
    ensures var r := AddVar(m, from, to, fromKey, toKey, isLazy);
            && (isLazy || fromKey != toKey ==>
                  Bindings(r, fromKey) == Bindings(m, fromKey) + [BindData(from, to, isLazy)])
            && (!isLazy && fromKey != toKey ==>
                  Bindings(r, toKey) == Bindings(m, toKey) + [BindData(to, from, false)])
            && (!isLazy && fromKey == toKey ==>
                  Bindings(r, fromKey) ==
                    Bindings(m, fromKey) + [BindData(from, to, false), BindData(to, from, false)])
            && (isLazy && fromKey != toKey ==> Bindings(r, toKey) == Bindings(m, toKey))
  {
  }

  /** Adding a binding leaves the bucket of every other key as it was, and
      creates no other bucket. */
  lemma AddVarOthersUnchanged(m: VarMap, from: Node, to: Node, fromKey: Aux, toKey: Aux, isLazy: bool, k: Aux)
    requires k != fromKey && (isLazy || k != toKey)
    ensures var r := AddVar(m, from, to, fromKey, toKey, isLazy);
            (k in r <==> k in m) && Bindings(r, k) == Bindings(m, k)
  {
  }

  /** Every normal binding in a bucket is matched by its reverse in the
      bucket of its second variable: the invariant `add_var_constraints`
      keeps, given the aux word `key` of each variable. */
  ghost predicate VarSymmetric(m: VarMap, key: Node -> Aux) {
    forall k, i :: k in m && 0 <= i < |m[k]| && !m[k][i].isLazy ==>
      BindData(m[k][i].second, m[k][i].first, false) in Bindings(m, key(m[k][i].second))
  }

  lemma {:induction false} AddVarKeepsSymmetric(m: VarMap, from: Node, to: Node, key: Node -> Aux, isLazy: bool)
    requires VarSymmetric(m, key)
    ensures VarSymmetric(AddVar(m, from, to, key(from), key(to), isLazy), key)
  {
    var r: VarMap := AddVar(m, from, to, key(from), key(to), isLazy);
    var fwd, bwd := BindData(from, to, isLazy), BindData(to, from, isLazy);
    var m1 := AddOneVar(m, key(from), fwd);
    forall k: Aux, i: int | k in r && 0 <= i < |r[k]| && !r[k][i].isLazy
      ensures BindData(r[k][i].second, r[k][i].first, false) in Bindings(r, key(r[k][i].second))
    {
      var b := r[k][i];
      GrowsBucket(m, r, from, to, key, isLazy);
      if b == fwd || b == bwd {
        assert !isLazy;
        assert fwd in Bindings(r, key(from)) && bwd in Bindings(r, key(to));
      } else {
        BucketOrigin(m, r, from, to, key, isLazy, k, i);
        var j :| 0 <= j < |m[k]| && m[k][j] == b;
        assert BindData(b.second, b.first, false) in Bindings(m, key(b.second));
      }
    }
  }

  /** No bucket loses a binding. */
  lemma GrowsBucket(m: VarMap, r: VarMap, from: Node, to: Node, key: Node -> Aux, isLazy: bool)
    requires r == AddVar(m, from, to, key(from), key(to), isLazy)
    ensures forall k :: Bindings(m, k) <= Bindings(r, k)
    ensures !isLazy ==> BindData(from, to, false) in Bindings(r, key(from))
    ensures !isLazy ==> BindData(to, from, false) in Bindings(r, key(to))
  {
    var m1 := AddOneVar(m, key(from), BindData(from, to, isLazy));
    assert forall k :: Bindings(m, k) <= Bindings(m1, k);
    if !isLazy {
      assert BindData(from, to, false) in Bindings(m1, key(from));
      assert forall k :: Bindings(m1, k) <= Bindings(r, k);
    }
  }

  /** A binding of the new map other than the two added ones was already
      in the old map. */
  lemma BucketOrigin(m: VarMap, r: VarMap, from: Node, to: Node, key: Node -> Aux, isLazy: bool, k: Aux, i: nat)
    requires r == AddVar(m, from, to, key(from), key(to), isLazy)
    requires k in r && i < |r[k]|
    requires r[k][i] != BindData(from, to, isLazy) && r[k][i] != BindData(to, from, isLazy)
    ensures k in m && exists j :: 0 <= j < |m[k]| && m[k][j] == r[k][i]
  {
    var m1 := AddOneVar(m, key(from), BindData(from, to, isLazy));
    assert k in m1 && i < |m1[k]| && m1[k][i] == r[k][i] by {
      if !isLazy && k == key(to) {
        assert r[k] == Bindings(m1, k) + [BindData(to, from, isLazy)];
      }
    }
    if k == key(from) {
      assert m1[k] == Bindings(m, k) + [BindData(from, to, isLazy)];
    }
    assert m[k][i] == r[k][i];
  }

  // ---- eq_choice ----

  /** `_add_one_choice_constraint(a, b)`: records `b` as equivalent to `a`,
      creating the set for `a` on first use and inserting only when `b` is
      not already there. */
  function AddOneChoice(m: ChoiceMap, a: Aux, b: Aux): ChoiceMap {
    if a !in m then m[a := {b}]
    else if b !in m[a] then m[a := m[a] + {b}]
    else m
  }

  /** `add_choice_constraints(a, b)`: in both directions. */
  function AddChoice(m: ChoiceMap, a: Aux, b: Aux): ChoiceMap {
    AddOneChoice(AddOneChoice(m, a, b), b, a)
  }

  /** Afterwards `b` is equivalent to `a` and `a` to `b`, and nothing else
      was added: each set gained exactly the other id. */
  lemma AddChoiceRelates(m: ChoiceMap, a: Aux, b: Aux)
    ensures var r := AddChoice(m, a, b);
            && a in r && b in r && b in r[a] && a in r[b]
            && (a != b ==> r[a] == Equivalents(m, a) + {b} && r[b] == Equivalents(m, b) + {a})
            && (a == b ==> r[a] == Equivalents(m, a) + {a})
  {
  }

  /** Repeating a choice constraint changes nothing: the sets are sets. */
  lemma {:induction false} AddChoiceIdempotent(m: ChoiceMap, a: Aux, b: Aux)
    ensures AddChoice(AddChoice(m, a, b), a, b) == AddChoice(m, a, b)
  {
    var r := AddChoice(m, a, b);
    AddChoiceRelates(m, a, b);
    assert b in r[a] && a in r[b];
    assert AddOneChoice(r, a, b) == r;
  }

  /** The order of the two ids does not matter. */
  lemma {:induction false} AddChoiceCommutes(m: ChoiceMap, a: Aux, b: Aux)
    ensures AddChoice(m, a, b) == AddChoice(m, b, a)
  {
    AddChoiceRelates(m, a, b);
    AddChoiceRelates(m, b, a);
    var r, s := AddChoice(m, a, b), AddChoice(m, b, a);
    forall k | k in r
      ensures k in s && r[k] == s[k]
    {
      if k != a && k != b {
        OneChoiceOthers(m, a, b, k);
        OneChoiceOthers(AddOneChoice(m, a, b), b, a, k);
        OneChoiceOthers(m, b, a, k);
        OneChoiceOthers(AddOneChoice(m, b, a), a, b, k);
      }
    }
    forall k | k in s
      ensures k in r
    {
      if k != a && k != b {
        OneChoiceOthers(m, b, a, k);
        OneChoiceOthers(AddOneChoice(m, b, a), a, b, k);
        OneChoiceOthers(m, a, b, k);
        OneChoiceOthers(AddOneChoice(m, a, b), b, a, k);
      }
    }
  }

  /** Adding an equivalence under one key leaves every other key as it
      was. */
  lemma OneChoiceOthers(m: ChoiceMap, a: Aux, b: Aux, k: Aux)
    requires k != a
    ensures var r := AddOneChoice(m, a, b);
            (k in r <==> k in m) && (k in m ==> r[k] == m[k])
  {
  }

  /** Adding a choice constraint leaves every other choice's set as it
      was. */
  lemma AddChoiceOthersUnchanged(m: ChoiceMap, a: Aux, b: Aux, k: Aux)
    requires k != a && k != b
    ensures var r := AddChoice(m, a, b);
            (k in r <==> k in m) && Equivalents(r, k) == Equivalents(m, k)
  {
    OneChoiceOthers(m, a, b, k);
    OneChoiceOthers(AddOneChoice(m, a, b), b, a, k);
  }

  /** `eq_choice` is always symmetric: if `b` is recorded for `a` then `a`
      is recorded for `b`. */
  ghost predicate ChoiceSymmetric(m: ChoiceMap) {
    forall a, b :: a in m && b in m[a] ==> b in m && a in m[b]
  }

  lemma {:induction false} AddChoiceKeepsSymmetric(m: ChoiceMap, a: Aux, b: Aux)
    requires ChoiceSymmetric(m)
    ensures ChoiceSymmetric(AddChoice(m, a, b))
  {
    var r := AddChoice(m, a, b);
    AddChoiceRelates(m, a, b);
    forall x, y | x in r && y in r[x]
      ensures y in r && x in r[y]
    {
      if x != a && x != b {
        AddChoiceOthersUnchanged(m, a, b, x);
        assert x in m && y in m[x];
        if y != a && y != b {
          AddChoiceOthersUnchanged(m, a, b, y);
        }
      } else if y != a && y != b {
        assert y in Equivalents(m, x);
        AddChoiceOthersUnchanged(m, a, b, y);
      }
    }
  }

  // ---- The store ----

  /** `ConstraintStore`: the two maps, each in its own copy-on-write cell.
      The per-variable and per-choice buckets, which the runtime keeps in
      cells of their own, are plain values of the maps here. */
  class ConstraintStore {
    var eqVar: Shared<VarMap>
    var eqChoice: Shared<ChoiceMap>

    ghost predicate Valid()
      reads this, eqVar, eqChoice, eqVar.data, eqChoice.data
    {
      && eqVar.Valid() && eqChoice.Valid()
      && {eqVar, eqVar.data} !! {eqChoice, eqChoice.data}
    }

    constructor ()
      ensures Valid() && fresh(eqVar) && fresh(eqVar.data) && fresh(eqChoice) && fresh(eqChoice.data)
      ensures eqVar.Read() == map[] && eqChoice.Read() == map[]
    {
      eqVar := new Shared(map[]);
      eqChoice := new Shared(map[]);
    }

    /** `add_var_constraints(from, to, isLazy)`. */
    method AddVarConstraints(from: Node, to: Node, isLazy: bool)
      requires Valid()
      modifies eqVar, eqVar.data
      ensures Valid() && eqVar == old(eqVar) && eqChoice == old(eqChoice)
      ensures eqVar.Read() == AddVar(old(eqVar.Read()), from, to, from.aux, to.aux, isLazy)
      ensures eqChoice.data == old(eqChoice.data) && eqChoice.Read() == old(eqChoice.Read())
      ensures eqVar.data == old(eqVar.data) || fresh(eqVar.data)
      ensures old(eqVar.NeedsCopy()) ==> fresh(eqVar.data) && old(eqVar.data).value == old(eqVar.data.value)
    {
      AddOneVarConstraint(from, to, isLazy);
      if !isLazy {
        AddOneVarConstraint(to, from, isLazy);
      }
    }

    /** `_add_one_var_constriant`: takes write access to the map (copying
        it if another store shares it) and appends to the bucket. */
    method AddOneVarConstraint(from: Node, to: Node, isLazy: bool)
      requires Valid()
      modifies eqVar, eqVar.data
      ensures Valid() && eqVar == old(eqVar) && eqChoice == old(eqChoice)
      ensures eqVar.Read() == AddOneVar(old(eqVar.Read()), from.aux, BindData(from, to, isLazy))
      ensures eqChoice.data == old(eqChoice.data) && eqChoice.Read() == old(eqChoice.Read())
      ensures eqVar.data == old(eqVar.data) || fresh(eqVar.data)
      ensures old(eqVar.NeedsCopy()) ==> fresh(eqVar.data) && old(eqVar.data).value == old(eqVar.data.value)
    {
      var vstore := eqVar.Write();
      vstore.value := AddOneVar(vstore.value, from.aux, BindData(from, to, isLazy));
    }

    /** `add_choice_constraints(a, b)`. */
    method AddChoiceConstraints(a: Aux, b: Aux)
      requires Valid()
      modifies eqChoice, eqChoice.data
      ensures Valid() && eqVar == old(eqVar) && eqChoice == old(eqChoice)
      ensures eqChoice.Read() == AddChoice(old(eqChoice.Read()), a, b)
      ensures eqVar.data == old(eqVar.data) && eqVar.Read() == old(eqVar.Read())
      ensures eqChoice.data == old(eqChoice.data) || fresh(eqChoice.data)
      ensures old(eqChoice.NeedsCopy()) ==> fresh(eqChoice.data) && old(eqChoice.data).value == old(eqChoice.data.value)
    {
      AddOneChoiceConstraint(a, b);
      AddOneChoiceConstraint(b, a);
    }

    /** `_add_one_choice_constraint(a, b)`. Write access (and with it a
        copy of a shared map) is taken even when `b` is already recorded. */
    method AddOneChoiceConstraint(a: Aux, b: Aux)
      requires Valid()
      modifies eqChoice, eqChoice.data
      ensures Valid() && eqVar == old(eqVar) && eqChoice == old(eqChoice)
      ensures eqChoice.Read() == AddOneChoice(old(eqChoice.Read()), a, b)
      ensures eqVar.data == old(eqVar.data) && eqVar.Read() == old(eqVar.Read())
      ensures eqChoice.data == old(eqChoice.data) || fresh(eqChoice.data)
      ensures old(eqChoice.NeedsCopy()) ==> fresh(eqChoice.data) && old(eqChoice.data).value == old(eqChoice.data.value)
    {
      var cstore := eqChoice.Write();
      if a !in cstore.value {
        var store := eqChoice.Write();
        store.value := store.value[a := {b}];
      } else if b !in cstore.value[a] {
        cstore.value := cstore.value[a := cstore.value[a] + {b}];
      }
    }
  }

  /** Two stores forked from one computation share their maps. A constraint
      added to one store is copied into a map of its own; the other store
      keeps reading the maps it read before. */
  method ForkedStoresIndependent(s1: ConstraintStore, s2: ConstraintStore, from: Node, to: Node, isLazy: bool, a: Aux, b: Aux)
    requires s1.Valid() && s2.Valid() && s1.eqVar != s2.eqVar && s1.eqChoice != s2.eqChoice
    requires s1.eqVar.data == s2.eqVar.data && s1.eqVar.data.holders == 2
    requires s1.eqChoice.data == s2.eqChoice.data && s1.eqChoice.data.holders == 2
    modifies s1.eqVar, s1.eqVar.data, s1.eqChoice, s1.eqChoice.data
    ensures s1.eqVar.Read() == AddVar(old(s1.eqVar.Read()), from, to, from.aux, to.aux, isLazy)
    ensures s1.eqChoice.Read() == AddChoice(old(s1.eqChoice.Read()), a, b)
    ensures s2.eqVar.Read() == old(s2.eqVar.Read()) && s2.eqChoice.Read() == old(s2.eqChoice.Read())
    ensures s1.eqVar.data != s2.eqVar.data && s1.eqChoice.data != s2.eqChoice.data
  {
    s1.AddVarConstraints(from, to, isLazy);
    s1.AddChoiceConstraints(a, b);
  }

  // ---- Frames ----

  /** `Cy_EvalFrame`: one entry of a work queue. The fingerprint is not
      part of this model. */
  class EvalFrame {
    var expr: Node
    var constraints: ConstraintStore
    /** The number of collection cycles before the frame is rotated to the
        end of the queue. */
    var timeAllotment: nat

    /** `Cy_EvalFrame(node * e)`: a frame for `e` with an empty store. */
    constructor (e: Node)
      ensures expr == e && timeAllotment == 1
      ensures fresh(constraints) && constraints.Valid()
      ensures constraints.eqVar.Read() == map[] && constraints.eqChoice.Read() == map[]
    {
      expr := e;
      constraints := new ConstraintStore();
      timeAllotment := 1;
    }

    /** `Cy_EvalFrame(e, f, c)`: a frame for `e` that takes over the store
        `c`. */
    constructor WithStore(e: Node, c: ConstraintStore)
      ensures expr == e && constraints == c && timeAllotment == 1
    {
      expr := e;
      constraints := c;
      timeAllotment := 1;
    }
  }

  /** `Cy_ComputationFrame`: one activation of `Cy_Eval` in the list of
      running computations. */
  class ComputationFrame {
    var computation: seq<EvalFrame>
    var next: ComputationFrame?

    constructor (computation: seq<EvalFrame>, next: ComputationFrame?)
      ensures this.computation == computation && this.next == next
    {
      this.computation := computation;
      this.next := next;
    }
  }
}
