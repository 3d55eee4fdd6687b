/** Totals over finite sets of records in any commutative monoid, and totals by group. */
module Grouping {
  import opened Wrappers
  import opened Hierarchy

  /** Adding up in any order, from nothing. */
  ghost predicate Adds<M(!new)>(zero: M, plus: (M, M) -> M) {
    && (forall a :: plus(zero, a) == a)
    && (forall a, b :: plus(a, b) == plus(b, a))
    && (forall a, b, c :: plus(plus(a, b), c) == plus(a, plus(b, c)))
  }

  ghost function Total<M>(zero: M, plus: (M, M) -> M, ids: set<Id>, value: Id -> M): M {
    if ids == {} then zero
    else
      var i :| i in ids;
      plus(value(i), Total(zero, plus, ids - {i}, value))
  }

  lemma {:induction false} TotalTakeOut<M(!new)>(zero: M, plus: (M, M) -> M, ids: set<Id>, value: Id -> M, i: Id)
    requires Adds(zero, plus) && i in ids
    ensures Total(zero, plus, ids, value) == plus(value(i), Total(zero, plus, ids - {i}, value))
    decreases ids
  {
    var j :| j in ids && Total(zero, plus, ids, value) == plus(value(j), Total(zero, plus, ids - {j}, value));
    if j != i {
      var rest := ids - {j} - {i};
      TotalTakeOut(zero, plus, ids - {j}, value, i);
      TotalTakeOut(zero, plus, ids - {i}, value, j);
      assert ids - {i} - {j} == rest;
      var a, b, c := value(j), value(i), Total(zero, plus, rest, value);
      assert plus(a, plus(b, c)) == plus(plus(a, b), c) == plus(plus(b, a), c) == plus(b, plus(a, c));
    }
  }

  lemma TotalAdd<M(!new)>(zero: M, plus: (M, M) -> M, ids: set<Id>, value: Id -> M, i: Id)
    requires Adds(zero, plus) && i !in ids
    ensures Total(zero, plus, ids + {i}, value) == plus(Total(zero, plus, ids, value), value(i))
  {
    TotalTakeOut(zero, plus, ids + {i}, value, i);
    assert ids + {i} - {i} == ids;
  }

  lemma {:induction false} TotalSame<M(!new)>(zero: M, plus: (M, M) -> M, ids: set<Id>, value: Id -> M, other: Id -> M)
    requires Adds(zero, plus) && forall i :: i in ids ==> value(i) == other(i)
    ensures Total(zero, plus, ids, value) == Total(zero, plus, ids, other)
    decreases ids
  {
    if i :| i in ids {
      TotalSame(zero, plus, ids - {i}, value, other);
      TotalTakeOut(zero, plus, ids, value, i);
      TotalTakeOut(zero, plus, ids, other, i);
    }
  }

  lemma {:induction false} TotalUnion<M(!new)>(zero: M, plus: (M, M) -> M, a: set<Id>, b: set<Id>, value: Id -> M)
    requires Adds(zero, plus) && a !! b
    ensures Total(zero, plus, a + b, value) == plus(Total(zero, plus, a, value), Total(zero, plus, b, value))
    decreases a
  {
    if i :| i in a {
      TotalUnion(zero, plus, a - {i}, b, value);
      TotalTakeOut(zero, plus, a, value, i);
      TotalTakeOut(zero, plus, a + b, value, i);
      assert a + b - {i} == (a - {i}) + b;
      var x, y, z := value(i), Total(zero, plus, a - {i}, value), Total(zero, plus, b, value);
      assert plus(x, plus(y, z)) == plus(plus(x, y), z);
    } else {
      assert a + b == b;
    }
  }

  /** The records of one group, and of a set of groups. */
  function Group(ids: set<Id>, key: map<Id, Id>, k: Id): set<Id> {
    set i | i in ids && i in key && key[i] == k
  }

  function Groups(ids: set<Id>, key: map<Id, Id>, keys: set<Id>): set<Id> {
    set i | i in ids && i in key && key[i] in keys
  }

  lemma GroupsStep(ids: set<Id>, key: map<Id, Id>, keys: set<Id>, k: Id)
    requires k in keys
    ensures Groups(ids, key, keys) == Group(ids, key, k) + Groups(ids, key, keys - {k})
    ensures Group(ids, key, k) !! Groups(ids, key, keys - {k})
  {
  }

  /** Adding up the totals of groups is adding up the records in them. */
  lemma {:induction false} TotalOfGroups<M(!new)>(
      zero: M, plus: (M, M) -> M, ids: set<Id>, key: map<Id, Id>, keys: set<Id>, value: Id -> M, byGroup: Id -> M)
    requires Adds(zero, plus)
    requires forall k :: k in keys ==> byGroup(k) == Total(zero, plus, Group(ids, key, k), value)
    ensures Total(zero, plus, keys, byGroup) == Total(zero, plus, Groups(ids, key, keys), value)
    decreases keys
  {
    if k :| k in keys {
      TotalOfGroups(zero, plus, ids, key, keys - {k}, value, byGroup);
      TotalTakeOut(zero, plus, keys, byGroup, k);
      GroupsStep(ids, key, keys, k);
      TotalUnion(zero, plus, Group(ids, key, k), Groups(ids, key, keys - {k}), value);
    } else {
      assert Groups(ids, key, keys) == {};
    }
  }

  /** The elements of a sequence up to a place. */
  function Before(s: seq<Id>, n: nat): set<Id>
    requires n <= |s|
  {
    set i | i in s[..n]
  }

  lemma BeforeNext(s: seq<Id>, n: nat)
    requires n < |s| && NoRepeats(s)
    ensures Before(s, n + 1) == Before(s, n) + {s[n]} && s[n] !in Before(s, n)
  {
    assert s[..n + 1] == s[..n] + [s[n]];
  }
  // ---------------------------------------------------------------- groups of the register

  function LgaMap(g: Register): map<Id, Id> {
    map pu | pu in g.puWard && g.LgaOfPu(pu).Some? :: g.LgaOfPu(pu).value
  }

  function StateMap(g: Register): map<Id, Id> {
    map pu | pu in g.puWard && g.StateOfPu(pu).Some? :: g.StateOfPu(pu).value
  }

  function LgasOf(g: Register, state: Id): set<Id> {
    set lga | lga in g.lgaState && g.lgaState[lga] == state
  }

  function WardsOf(g: Register, lga: Id): set<Id> {
    set ward | ward in g.wardLga && g.wardLga[ward] == lga
  }

  /** The units in the LGAs of a state are those of the state. */
  lemma UnitsOfState(g: Register, state: Id)
    requires g.Valid()
    ensures Groups(g.puWard.Keys, LgaMap(g), LgasOf(g, state)) == Group(g.puWard.Keys, StateMap(g), state)
  {
  }

  /** The polling units of some LGAs, as a query finds them. */
  ghost predicate UnitsOfLgas(g: Register, pus: seq<Id>, lgaIds: seq<Id>) {
    NoRepeats(pus) && Before(pus, |pus|) == set pu | pu in LgaMap(g) && LgaMap(g)[pu] in lgaIds
  }

  /** They include all units of each of those LGAs. */
  lemma GroupOfUnits(g: Register, pus: seq<Id>, lgaIds: seq<Id>, lga: Id)
    requires UnitsOfLgas(g, pus, lgaIds) && lga in lgaIds
    ensures Group(Before(pus, |pus|), LgaMap(g), lga) == Group(g.puWard.Keys, LgaMap(g), lga)
  {
    assert LgaMap(g).Keys <= g.puWard.Keys;
    hide LgaMap;
    assert Group(LgaMap(g).Keys, LgaMap(g), lga) == Group(g.puWard.Keys, LgaMap(g), lga);
  }

  // ---------------------------------------------------------------- counts grouped by a query

  lemma SameSize<T>(a: set<T>, b: set<T>)
    requires a <= b && |a| == |b|
    ensures a == b
  {
    assert b == a + (b - a);
  }

  datatype TotalRow = TotalRow(state: Id, total: nat)

  /** The total given for a state: the last one, or 0 if its group is empty. */
  function TotalFor(rows: seq<TotalRow>, state: Id): nat {
    if rows == [] then 0
    else if rows[|rows| - 1].state == state then rows[|rows| - 1].total
    else TotalFor(rows[..|rows| - 1], state)
  }
}
