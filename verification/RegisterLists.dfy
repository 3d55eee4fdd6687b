/** Lists of polling units of one ward, and how one unit is updated or added. */
module RegisterLists {
  import opened Wrappers
  import opened Sorting

  /** Further attributes of a polling unit's record. */
  datatype Attribute =
    | Id | StatePart | LgaPart | WardPart | UnitsPart | Abbreviation | Remark | PreciseLocation | Other(name: string)

  /** A record; an attribute may be missing or null. */
  datatype Unit = Unit(delimitation: Option<string>, name: string, rest: map<Attribute, Option<string>>)

  /** The attributes of `b` over those of `a`. */
  function Spread(a: Unit, b: Unit): Unit {
    Unit(if b.delimitation.Some? then b.delimitation else a.delimitation, b.name, a.rest + b.rest)
  }

  // ---------------------------------------------------------------- a record for a delimitation

  function Split(s: string): (parts: seq<string>)
    ensures |parts| >= 1
  {
    if s == "" then [""]
    else if s[0] == '/' then [""] + Split(s[1..])
    else
      var parts := Split(s[1..]);
      [[s[0]] + parts[0]] + parts[1..]
  }

  function Part(parts: seq<string>, i: nat, default: string): string {
    if i < |parts| then parts[i] else default
  }

  function Dashed(s: string): string {
    if s == "" then "" else (if s[0] == '/' then "-" else [s[0]]) + Dashed(s[1..])
  }

  function Coalesce(rest: map<Attribute, Option<string>>, a: Attribute, default: Option<string>): Option<string> {
    if a in rest && rest[a].Some? then rest[a] else default
  }

  /** The attributes a record gets for its delimitation. */
  function Stamp(d: string): map<Attribute, Option<string>> {
    var parts := Split(d);
    var units := Some(Part(parts, 4, "000"));
    map[
      Id := Some("inec-align-" + Dashed(d)),
      StatePart := Some(Part(parts, 1, "15")),
      LgaPart := Some(Part(parts, 2, "00")),
      WardPart := Some(Part(parts, 3, "00")),
      UnitsPart := units,
      Abbreviation := units]
  }

  function Clone(u: Unit, d: string, name: string): Unit {
    var kept := map[
      Remark := Coalesce(u.rest, Remark, Some("NEW PU")),
      PreciseLocation := Coalesce(u.rest, PreciseLocation, None)];
    Unit(Some(d), name, u.rest + Stamp(d) + kept)
  }

  /** A record that cloning leaves as it is. */
  predicate Stamped(u: Unit, d: string, name: string) {
    Clone(u, d, name) == u
  }

  lemma {:induction false} SplitAfter(first: string, rest: string)
    requires '/' !in first
    ensures Split(first + "/" + rest) == [first] + Split(rest)
  {
    if first == "" {
      assert (first + "/" + rest)[1..] == rest;
    } else {
      assert (first + "/" + rest)[1..] == first[1..] + "/" + rest;
      SplitAfter(first[1..], rest);
      assert [first[0]] + first[1..] == first;
    }
  }

  lemma {:induction false} SplitLast(last: string)
    requires '/' !in last
    ensures Split(last) == [last]
  {
    if last == "" {
    } else {
      SplitLast(last[1..]);
      assert [last[0]] + last[1..] == last;
    }
  }

  predicate HasParts(
      rest: map<Attribute, Option<string>>, state: string, lga: string, ward: string, units: string) {
    && StatePart in rest && rest[StatePart] == Some(state) && LgaPart in rest && rest[LgaPart] == Some(lga)
    && WardPart in rest && rest[WardPart] == Some(ward) && UnitsPart in rest && rest[UnitsPart] == Some(units)
  }

  /**
   * Of a delimitation state/lga/ward/units the record gets every part one place too early: the LGA's
   * number as state, the ward's as LGA, the unit's as ward, and units 000. The parts are right only of
   * 000/000/000/000.
   */
  lemma PartsAreShifted(state: string, lga: string, ward: string, units: string)
    requires '/' !in state && '/' !in lga && '/' !in ward && '/' !in units
    ensures
      var stamp := Stamp(state + "/" + (lga + "/" + (ward + "/" + units)));
      && stamp[StatePart] == Some(lga) && stamp[LgaPart] == Some(ward) && stamp[WardPart] == Some(units)
      && stamp[UnitsPart] == Some("000") && stamp[Abbreviation] == Some("000")
      && (HasParts(stamp, state, lga, ward, units) <==> state == lga == ward == units == "000")
  {
    SplitAfter(state, lga + "/" + (ward + "/" + units));
    SplitAfter(lga, ward + "/" + units);
    SplitAfter(ward, units);
    SplitLast(units);
    hide Split;
    assert Split(state + "/" + (lga + "/" + (ward + "/" + units))) == [state, lga, ward, units];
  }

  lemma {:induction false} DashedExactly(s: string)
    ensures |Dashed(s)| == |s| && forall i :: 0 <= i < |s| ==> Dashed(s)[i] == if s[i] == '/' then '-' else s[i]
  {
    if s == "" {
    } else {
      DashedExactly(s[1..]);
    }
  }

  /** Replaces the value of an attribute, unless it is there and not null. */
  predicate Defaults(was: map<Attribute, Option<string>>, now: map<Attribute, Option<string>>, a: Attribute,
      default: Option<string>)
  {
    a in now && now[a] == if a in was && was[a].Some? then was[a] else default
  }

  /** A cloned record: its own delimitation, name and id, a remark, and all further attributes of the model. */
  lemma CloneExactly(u: Unit, d: string, name: string)
    ensures
      var copy := Clone(u, d, name);
      && copy.delimitation == Some(d) && copy.name == name
      && Id in copy.rest && copy.rest[Id] == Some("inec-align-" + Dashed(d))
      && Defaults(u.rest, copy.rest, Remark, Some("NEW PU")) && Defaults(u.rest, copy.rest, PreciseLocation, None)
      && forall s :: Other(s) in copy.rest <==> Other(s) in u.rest
    ensures
      forall s :: Other(s) in u.rest ==> Clone(u, d, name).rest[Other(s)] == u.rest[Other(s)]
  {
    hide Dashed, Split;
    var kept := map[
      Remark := Coalesce(u.rest, Remark, Some("NEW PU")),
      PreciseLocation := Coalesce(u.rest, PreciseLocation, None)];
    assert kept.Keys == {Remark, PreciseLocation};
  }

  lemma CloneIsStamped(u: Unit, d: string, name: string)
    ensures Stamped(Clone(u, d, name), d, name)
  {
    hide Stamp;
    var kept := map[
      Remark := Coalesce(u.rest, Remark, Some("NEW PU")),
      PreciseLocation := Coalesce(u.rest, PreciseLocation, None)];
    assert kept.Keys == {Remark, PreciseLocation};
  }

  lemma SpreadIsStamped(before: Unit, u: Unit, d: string, name: string)
    ensures Stamped(Spread(before, Clone(u, d, name)), d, name)
  {
    hide Stamp;
  }

  lemma SpreadTwice(before: Unit, next: Unit)
    ensures Spread(Spread(before, next), next) == Spread(before, next)
  {
  }

  lemma SpreadOfSame(u: Unit)
    ensures Spread(u, u) == u
  {
  }

  // ---------------------------------------------------------------- lists

  /** The first record of a delimitation. */
  function Find(us: seq<Unit>, d: string): Option<Unit> {
    if us == [] then None
    else if us[0].delimitation == Some(d) then Some(us[0])
    else Find(us[1..], d)
  }

  /** Replace the first record of a delimitation, which must be there. */
  function ReplaceFirst(us: seq<Unit>, d: string, u: Unit): seq<Unit>
    requires Find(us, d).Some?
  {
    if us[0].delimitation == Some(d) then [u] + us[1..] else [us[0]] + ReplaceFirst(us[1..], d, u)
  }

  function Keep(us: seq<Unit>, p: Unit -> bool): seq<Unit> {
    if us == [] then [] else (if p(us[0]) then [us[0]] else []) + Keep(us[1..], p)
  }

  /** How two delimitations compare; a missing one counts as empty. */
  type Order = (string, string) -> bool

  function SortKey(u: Unit): string {
    u.delimitation.Or("")
  }

  function ByDelimitation(leq: Order): (Unit, Unit) -> bool {
    (a, b) => leq(SortKey(a), SortKey(b))
  }

  function Upsert(leq: Order, us: seq<Unit>, template: Unit, d: string, name: string): seq<Unit> {
    var next := Clone(template, d, name);
    var present := Find(us, d);
    if present.Some? then ReplaceFirst(us, d, Spread(present.value, next))
    else StableSort(ByDelimitation(leq), us + [next])
  }

  // ---------------------------------------------------------------- what is found in a list

  lemma {:induction false} FindAppended(us: seq<Unit>, u: Unit, d: string)
    ensures Find(us + [u], d)
      == if Find(us, d).Some? then Find(us, d) else if u.delimitation == Some(d) then Some(u) else None
  {
    if us == [] {
      assert us + [u] == [u];
    } else {
      assert (us + [u])[1..] == us[1..] + [u];
      FindAppended(us[1..], u, d);
    }
  }

  /** An insertion never passes a record of the same delimitation. */
  lemma {:induction false} FindInserted(leq: Order, us: seq<Unit>, u: Unit, d: string)
    requires TotalPreorder(leq)
    ensures Find(Insert(ByDelimitation(leq), us, u), d) == Find(us + [u], d)
  {
    if us == [] || leq(SortKey(us[|us| - 1]), SortKey(u)) {
    } else {
      var rest, last := us[..|us| - 1], us[|us| - 1];
      FindInserted(leq, rest, u, d);
      FindAppended(Insert(ByDelimitation(leq), rest, u), last, d);
      FindAppended(rest, u, d);
      FindAppended(rest, last, d);
      FindAppended(us, u, d);
      assert us == rest + [last];
    }
  }

  lemma {:induction false} FindSorted(leq: Order, us: seq<Unit>, d: string)
    requires TotalPreorder(leq)
    ensures Find(StableSort(ByDelimitation(leq), us), d) == Find(us, d)
  {
    if us == [] {
    } else {
      var rest, last := us[..|us| - 1], us[|us| - 1];
      FindSorted(leq, rest, d);
      FindInserted(leq, StableSort(ByDelimitation(leq), rest), last, d);
      FindAppended(StableSort(ByDelimitation(leq), rest), last, d);
      FindAppended(rest, last, d);
      assert us == rest + [last];
    }
  }

  lemma {:induction false} FindReplaced(us: seq<Unit>, d: string, u: Unit, e: string)
    requires Find(us, d).Some? && u.delimitation == Some(d)
    ensures Find(ReplaceFirst(us, d, u), e) == if e == d then Some(u) else Find(us, e)
  {
    if us[0].delimitation != Some(d) {
      FindReplaced(us[1..], d, u, e);
      assert ReplaceFirst(us, d, u)[1..] == ReplaceFirst(us[1..], d, u);
    } else {
      assert ReplaceFirst(us, d, u)[1..] == us[1..];
    }
  }

  /** What an update finds afterwards: the new record at its delimitation, all others as before. */
  lemma FindUpserted(leq: Order, us: seq<Unit>, template: Unit, d: string, name: string, e: string)
    requires TotalPreorder(leq)
    ensures
      var next := Clone(template, d, name);
      Find(Upsert(leq, us, template, d, name), e)
      == if e != d then Find(us, e) else Some(if Find(us, d).Some? then Spread(Find(us, d).value, next) else next)
  {
    var next := Clone(template, d, name);
    if Find(us, d).Some? {
      FindReplaced(us, d, Spread(Find(us, d).value, next), e);
    } else {
      FindSorted(leq, us + [next], e);
      FindAppended(us, next, e);
    }
  }

  lemma {:induction false} FindKept(us: seq<Unit>, p: Unit -> bool, d: string)
    requires Find(us, d).Some? ==> p(Find(us, d).value)
    ensures Find(Keep(us, p), d) == Find(us, d)
  {
    if us == [] {
    } else {
      if us[0].delimitation != Some(d) {
        FindKept(us[1..], p, d);
      }
      if p(us[0]) {
        assert Keep(us, p)[1..] == Keep(us[1..], p);
      } else {
        assert Keep(us, p) == Keep(us[1..], p);
      }
    }
  }

  lemma {:induction false} KeepAll(us: seq<Unit>, p: Unit -> bool)
    requires forall u :: u in us ==> p(u)
    ensures Keep(us, p) == us
  {
    if us == [] {
    } else {
      KeepAll(us[1..], p);
    }
  }

  lemma {:induction false} KeptExactly(us: seq<Unit>, p: Unit -> bool, u: Unit)
    ensures u in Keep(us, p) <==> u in us && p(u)
  {
    if us == [] {
    } else {
      KeptExactly(us[1..], p, u);
    }
  }

  lemma {:induction false} FoundIsThere(us: seq<Unit>, d: string)
    ensures Find(us, d).Some? ==> Find(us, d).value in us && Find(us, d).value.delimitation == Some(d)
    ensures Find(us, d).None? ==> forall u :: u in us ==> u.delimitation != Some(d)
  {
    if us != [] && us[0].delimitation != Some(d) {
      FoundIsThere(us[1..], d);
    }
  }

  // ---------------------------------------------------------------- updating a second time

  /** What a list shows of its records. */
  function Shown(us: seq<Unit>): seq<(Option<string>, string)> {
    seq(|us|, i requires 0 <= i < |us| => (us[i].delimitation, us[i].name))
  }

  predicate Named(us: seq<Unit>, d: string, name: string) {
    Find(us, d).Some? && Find(us, d).value.name == name
  }

  lemma {:induction false} ReplaceShowsSame(us: seq<Unit>, d: string, u: Unit)
    requires Named(us, d, u.name) && u.delimitation == Some(d)
    ensures Shown(ReplaceFirst(us, d, u)) == Shown(us)
  {
    if us[0].delimitation != Some(d) {
      ReplaceShowsSame(us[1..], d, u);
      assert Shown(us)[1..] == Shown(us[1..]);
      assert Shown(ReplaceFirst(us, d, u))[1..] == Shown(ReplaceFirst(us[1..], d, u));
      assert Shown(us) == [Shown(us)[0]] + Shown(us[1..]);
    }
  }

  /** Updating a unit that already has the name shows the same list. */
  lemma UpsertShowsSame(leq: Order, us: seq<Unit>, template: Unit, d: string, name: string)
    requires Named(us, d, name)
    ensures Shown(Upsert(leq, us, template, d, name)) == Shown(us)
  {
    ReplaceShowsSame(us, d, Spread(Find(us, d).value, Clone(template, d, name)));
  }

  lemma {:induction false} ReplaceBySame(us: seq<Unit>, d: string)
    requires Find(us, d).Some?
    ensures ReplaceFirst(us, d, Find(us, d).value) == us
  {
    if us[0].delimitation != Some(d) {
      ReplaceBySame(us[1..], d);
    }
  }

  /** Updating a unit with what it already holds changes nothing. */
  lemma UpsertOfSame(leq: Order, us: seq<Unit>, template: Unit, d: string, name: string)
    requires Find(us, d).Some? && Spread(Find(us, d).value, Clone(template, d, name)) == Find(us, d).value
    ensures Upsert(leq, us, template, d, name) == us
  {
    ReplaceBySame(us, d);
  }

  /** Everything a copy of `model` for `d` would bring is in the record already. */
  predicate GivesNothing(u: Unit, model: Unit, d: string, name: string) {
    var copy := Clone(model, d, name);
    forall a | a in copy.rest :: a in u.rest && u.rest[a] == copy.rest[a]
  }

  lemma GivesNothingExactly(u: Unit, model: Unit, d: string, name: string)
    requires u.delimitation == Some(d) && u.name == name
    ensures Spread(u, Clone(model, d, name)) == u <==> GivesNothing(u, model, d, name)
  {
    var copy := Clone(model, d, name);
    var both := Spread(u, copy);
    assert copy.delimitation == Some(d) && copy.name == name;
    hide Clone;
    if both == u {
      forall a | a in copy.rest
        ensures a in u.rest && u.rest[a] == copy.rest[a]
      {
        assert a in both.rest && both.rest[a] == copy.rest[a];
      }
    }
    if GivesNothing(u, model, d, name) {
      assert u.rest + copy.rest == u.rest;
    }
  }

  lemma {:induction false} ReplacedExactly(us: seq<Unit>, d: string, u: Unit)
    requires Find(us, d).Some? && ReplaceFirst(us, d, u) == us
    ensures Find(us, d).value == u
  {
    var replaced := ReplaceFirst(us, d, u);
    if us[0].delimitation == Some(d) {
      assert replaced[0] == u;
    } else {
      assert replaced[1..] == ReplaceFirst(us[1..], d, u);
      ReplacedExactly(us[1..], d, u);
    }
  }

  /** Updating a unit under its own name changes nothing exactly if the model gives it nothing. */
  lemma UpsertIsFixedExactly(leq: Order, us: seq<Unit>, model: Unit, d: string, name: string)
    requires Named(us, d, name)
    ensures Upsert(leq, us, model, d, name) == us <==> GivesNothing(Find(us, d).value, model, d, name)
  {
    var u := Find(us, d).value;
    FoundIsThere(us, d);
    GivesNothingExactly(u, model, d, name);
    hide Spread, Clone, Find;
    if Spread(u, Clone(model, d, name)) == u {
      UpsertOfSame(leq, us, model, d, name);
    } else if Upsert(leq, us, model, d, name) == us {
      ReplacedExactly(us, d, Spread(u, Clone(model, d, name)));
    }
  }
}
