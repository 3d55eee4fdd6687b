/** The corrections that bring five wards of the Gombe register in line with INEC's delimitations. */
module RegisterAlignment {
  import opened Wrappers
  import opened Sorting
  import opened RegisterLists

  const WURO_TALE_CODE := "15/04/09/025"
  const ZANGE_CODE := "15/04/10/025"
  const ZANGE_NAME := "Kobini Zange, Zange Prim. School I"
  const KALTUNGO_MODEL := "15/07/03/031"
  const KALTUNGO_CODE := "15/07/03/032"
  const KALTUNGO_NAME := "Nasarawa/H/Prim. School"
  const LALAIPIDO_MODEL := "15/10/09/012"
  const LAPAN_MODEL := "15/10/10/011"
  const REMOVED: set<string> := {"15/10/09/015", "15/10/09/016", "15/10/09/017"}

  /** A unit INEC lists, and the code under which it may stand in the wrong ward. */
  datatype Fix = Fix(code: string, name: string, misplaced: Option<string>)

  const LALAIPIDO_FIXES: seq<Fix> := [
    Fix("15/10/09/013", "SHAGU PRI. SCH. II", None),
    Fix("15/10/09/014", "LALATAR, LALATAR PRI. SCH II", None)]

  const LAPAN_FIXES: seq<Fix> := [
    Fix("15/10/10/012", "Mango III, Lapan Prim. School", None),
    Fix("15/10/10/013", "Mango IV, Lapan Prim. School", None),
    Fix("15/10/10/014", "Primary Health Care Kwalkwari", None),
    Fix("15/10/10/015", "Lantame Primary School", Some("15/10/09/015")),
    Fix("15/10/10/016", "Govt. Sec. Sch, Lapan Kalaku", Some("15/10/09/016")),
    Fix("15/10/10/017", "Lasanjang Prim. Sch. II", Some("15/10/09/017"))]

  // ---------------------------------------------------------------- the corrections, list by list

  predicate IsNamed(u: Unit) {
    u.name != "" && u.delimitation.Some? && u.delimitation.value != ""
  }

  predicate Belongs(u: Unit) {
    IsNamed(u) && u.delimitation.value !in REMOVED
  }

  /** The unit to copy from: the given one, or else the first. */
  function Model(us: seq<Unit>, code: string): Option<Unit> {
    if Find(us, code).Some? then Find(us, code) else if us == [] then None else Some(us[0])
  }

  function UpsertEach(leq: Order, us: seq<Unit>, model: Unit, fixes: seq<Fix>): seq<Unit>
    decreases |fixes|
  {
    if fixes == [] then us
    else UpsertEach(leq, Upsert(leq, us, model, fixes[0].code, fixes[0].name), model, fixes[1..])
  }

  function AlignLalaipido(leq: Order, us: seq<Unit>): seq<Unit> {
    var model := Model(us, LALAIPIDO_MODEL);
    Keep(if model.None? then us else UpsertEach(leq, us, model.value, LALAIPIDO_FIXES), Belongs)
  }

  /** Where the record of a Lapan unit comes from; `lalaipido` is that ward's list before it is corrected. */
  function Source(us: seq<Unit>, fix: Fix, lalaipido: Option<seq<Unit>>, model: Unit): Unit {
    if Find(us, fix.code).Some? then Find(us, fix.code).value
    else if fix.misplaced.Some? && lalaipido.Some? && Find(lalaipido.value, fix.misplaced.value).Some?
    then Clone(Find(lalaipido.value, fix.misplaced.value).value, fix.code, fix.name)
    else model
  }

  function UpsertLapan(leq: Order, us: seq<Unit>, lalaipido: Option<seq<Unit>>, model: Unit, fixes: seq<Fix>): seq<Unit>
    decreases |fixes|
  {
    if fixes == [] then us
    else
      var fix := fixes[0];
      var next := Upsert(leq, us, Source(us, fix, lalaipido, model), fix.code, fix.name);
      UpsertLapan(leq, next, lalaipido, model, fixes[1..])
  }

  function AlignLapan(leq: Order, us: seq<Unit>, lalaipido: Option<seq<Unit>>): seq<Unit> {
    var kept := Keep(us, IsNamed);
    var model := Model(kept, LAPAN_MODEL);
    if model.None? then kept else UpsertLapan(leq, kept, lalaipido, model.value, LAPAN_FIXES)
  }

  function AlignKaltungo(leq: Order, us: seq<Unit>): seq<Unit> {
    var model := Model(us, KALTUNGO_MODEL);
    if model.None? then us else Upsert(leq, us, model.value, KALTUNGO_CODE, KALTUNGO_NAME)
  }

  predicate NotMoved(u: Unit) {
    u.delimitation != Some(WURO_TALE_CODE)
  }

  /** The record of the Zange unit, which may still stand in Wuro Tale. */
  function MovedZange(zange: seq<Unit>, wuroTale: Option<seq<Unit>>): Option<Unit> {
    if wuroTale.Some? && Find(wuroTale.value, WURO_TALE_CODE).Some? then Find(wuroTale.value, WURO_TALE_CODE)
    else Find(zange, ZANGE_CODE)
  }

  function AlignZange(leq: Order, us: seq<Unit>, wuroTale: Option<seq<Unit>>): seq<Unit> {
    var moved := MovedZange(us, wuroTale);
    if moved.None? then us else Upsert(leq, us, moved.value, ZANGE_CODE, ZANGE_NAME)
  }

  /** The lists of the five wards; a ward may be missing. */
  datatype Wards = Wards(
    wuroTale: Option<seq<Unit>>,
    zange: Option<seq<Unit>>,
    kaltungoWest: Option<seq<Unit>>,
    lalaipido: Option<seq<Unit>>,
    lapan: Option<seq<Unit>>)

  function Change(us: Option<seq<Unit>>, f: seq<Unit> -> seq<Unit>): Option<seq<Unit>> {
    if us.None? then None else Some(f(us.value))
  }

  function Align(leq: Order, w: Wards): Wards {
    Wards(
      Change(w.wuroTale, us => Keep(us, NotMoved)),
      Change(w.zange, us => AlignZange(leq, us, w.wuroTale)),
      Change(w.kaltungoWest, us => AlignKaltungo(leq, us)),
      Change(w.lalaipido, us => AlignLalaipido(leq, us)),
      Change(w.lapan, us => AlignLapan(leq, us, w.lalaipido)))
  }

  // ---------------------------------------------------------------- Wuro Tale and Zange

  lemma MovedUnitIsGone(us: seq<Unit>)
    ensures Find(Keep(us, NotMoved), WURO_TALE_CODE) == None
    ensures Keep(Keep(us, NotMoved), NotMoved) == Keep(us, NotMoved)
  {
    var kept := Keep(us, NotMoved);
    forall u | u in kept
      ensures NotMoved(u)
    {
      KeptExactly(us, NotMoved, u);
    }
    FoundIsThere(kept, WURO_TALE_CODE);
    KeepAll(kept, NotMoved);
  }

  /** An update leaves a stamped record at its code. */
  lemma UpsertedIsStamped(leq: Order, us: seq<Unit>, model: Unit, d: string, name: string)
    requires TotalPreorder(leq)
    ensures var r := Find(Upsert(leq, us, model, d, name), d); r.Some? && Stamped(r.value, d, name)
  {
    FindUpserted(leq, us, model, d, name, d);
    CloneIsStamped(model, d, name);
    if Find(us, d).Some? {
      SpreadIsStamped(Find(us, d).value, model, d, name);
    }
  }

  /** Updating a stamped record with itself changes nothing. */
  lemma UpsertWithItself(leq: Order, us: seq<Unit>, d: string, name: string)
    requires Find(us, d).Some? && Stamped(Find(us, d).value, d, name)
    ensures Upsert(leq, us, Find(us, d).value, d, name) == us
  {
    SpreadOfSame(Find(us, d).value);
    UpsertOfSame(leq, us, Find(us, d).value, d, name);
  }

  lemma ZangeIsFixed(leq: Order, us: seq<Unit>, wuroTale: Option<seq<Unit>>)
    requires TotalPreorder(leq)
    ensures
      var once := AlignZange(leq, us, wuroTale);
      AlignZange(leq, once, Change(wuroTale, vs => Keep(vs, NotMoved))) == once
  {
    hide Find, Upsert, Keep, Stamped;
    var once := AlignZange(leq, us, wuroTale);
    if wuroTale.Some? {
      MovedUnitIsGone(wuroTale.value);
    }
    if wuroTale.Some? && Find(wuroTale.value, WURO_TALE_CODE).Some? {
      UpsertedIsStamped(leq, us, Find(wuroTale.value, WURO_TALE_CODE).value, ZANGE_CODE, ZANGE_NAME);
      UpsertWithItself(leq, once, ZANGE_CODE, ZANGE_NAME);
    } else if Find(us, ZANGE_CODE).Some? {
      UpsertedIsStamped(leq, us, Find(us, ZANGE_CODE).value, ZANGE_CODE, ZANGE_NAME);
      UpsertWithItself(leq, once, ZANGE_CODE, ZANGE_NAME);
    }
  }

  // ---------------------------------------------------------------- Kaltungo West

  lemma KaltungoShowsSame(leq: Order, us: seq<Unit>)
    requires TotalPreorder(leq)
    ensures Shown(AlignKaltungo(leq, AlignKaltungo(leq, us))) == Shown(AlignKaltungo(leq, us))
  {
    if us != [] {
      hide Upsert, Find;
      var once := AlignKaltungo(leq, us);
      UpsertedIsStamped(leq, us, Model(us, KALTUNGO_MODEL).value, KALTUNGO_CODE, KALTUNGO_NAME);
      FoundInNothing(once, KALTUNGO_CODE);
      UpsertShowsSame(leq, once, Model(once, KALTUNGO_MODEL).value, KALTUNGO_CODE, KALTUNGO_NAME);
    }
  }

  lemma FoundInNothing(us: seq<Unit>, d: string)
    requires Find(us, d).Some?
    ensures us != []
  {
  }

  lemma KaltungoIsFixed(leq: Order, us: seq<Unit>)
    requires TotalPreorder(leq) && Find(us, KALTUNGO_MODEL).Some?
    ensures AlignKaltungo(leq, AlignKaltungo(leq, us)) == AlignKaltungo(leq, us)
  {
    hide Upsert, Find, Spread;
    var model := Find(us, KALTUNGO_MODEL).value;
    assert KALTUNGO_MODEL != KALTUNGO_CODE;
    FindUpserted(leq, us, model, KALTUNGO_CODE, KALTUNGO_NAME, KALTUNGO_MODEL);
    UpsertAgain(leq, us, model, KALTUNGO_CODE, KALTUNGO_NAME);
  }

  /** The second pass changes nothing exactly if this holds of the list before the first. */
  ghost predicate KaltungoIsStable(leq: Order, us: seq<Unit>) {
    || us == []
    || Find(us, KALTUNGO_MODEL).Some?
    || Find(us, KALTUNGO_CODE).Some?
    || var added := Clone(us[0], KALTUNGO_CODE, KALTUNGO_NAME);
       GivesNothing(added, FirstOf(StableSort(ByDelimitation(leq), us + [added])), KALTUNGO_CODE, KALTUNGO_NAME)
  }

  /** The first unit of a list that is not empty. */
  ghost function FirstOf(us: seq<Unit>): Unit {
    if us == [] then Unit(None, "", map[]) else us[0]
  }

  /** Without the model, but with the unit itself, the first unit of the list is as good as the same. */
  lemma KaltungoIsFixedByItself(leq: Order, us: seq<Unit>)
    requires TotalPreorder(leq) && Find(us, KALTUNGO_MODEL).None? && Find(us, KALTUNGO_CODE).Some?
    ensures AlignKaltungo(leq, AlignKaltungo(leq, us)) == AlignKaltungo(leq, us)
  {
    FoundInNothing(us, KALTUNGO_CODE);
    var once := AlignKaltungo(leq, us);
    assert KALTUNGO_MODEL != KALTUNGO_CODE;
    FindUpserted(leq, us, us[0], KALTUNGO_CODE, KALTUNGO_NAME, KALTUNGO_MODEL);
    if us[0].delimitation == Some(KALTUNGO_CODE) {
      UpsertedIsStamped(leq, us, us[0], KALTUNGO_CODE, KALTUNGO_NAME);
      hide Clone, Spread;
      assert once[0] == Find(once, KALTUNGO_CODE).value;
      UpsertWithItself(leq, once, KALTUNGO_CODE, KALTUNGO_NAME);
    } else {
      hide Clone, Spread;
      assert once[0] == us[0];
      UpsertAgain(leq, us, us[0], KALTUNGO_CODE, KALTUNGO_NAME);
    }
  }

  lemma KaltungoIsFixedExactly(leq: Order, us: seq<Unit>)
    requires TotalPreorder(leq)
    ensures AlignKaltungo(leq, AlignKaltungo(leq, us)) == AlignKaltungo(leq, us) <==> KaltungoIsStable(leq, us)
  {
    hide Clone, Spread, GivesNothing, StableSort;
    if us == [] {
    } else if Find(us, KALTUNGO_MODEL).Some? {
      KaltungoIsFixed(leq, us);
    } else if Find(us, KALTUNGO_CODE).Some? {
      KaltungoIsFixedByItself(leq, us);
    } else {
      KaltungoWhenAdded(leq, us);
    }
  }

  lemma KaltungoWhenAdded(leq: Order, us: seq<Unit>)
    requires TotalPreorder(leq) && us != [] && Find(us, KALTUNGO_MODEL).None? && Find(us, KALTUNGO_CODE).None?
    ensures
      var added := Clone(us[0], KALTUNGO_CODE, KALTUNGO_NAME);
      var once := StableSort(ByDelimitation(leq), us + [added]);
      && AlignKaltungo(leq, us) == once
      && (AlignKaltungo(leq, once) == once <==> GivesNothing(added, FirstOf(once), KALTUNGO_CODE, KALTUNGO_NAME))
  {
    var added := Clone(us[0], KALTUNGO_CODE, KALTUNGO_NAME);
    assert added.name == KALTUNGO_NAME && KALTUNGO_MODEL != KALTUNGO_CODE;
    hide Clone, Spread, GivesNothing, StableSort, Find;
    var once := StableSort(ByDelimitation(leq), us + [added]);
    FindUpserted(leq, us, us[0], KALTUNGO_CODE, KALTUNGO_NAME, KALTUNGO_MODEL);
    FindUpserted(leq, us, us[0], KALTUNGO_CODE, KALTUNGO_NAME, KALTUNGO_CODE);
    FoundInNothing(once, KALTUNGO_CODE);
    UpsertIsFixedExactly(leq, once, once[0], KALTUNGO_CODE, KALTUNGO_NAME);
  }

  /** The same update twice is the update once. */
  lemma UpsertAgain(leq: Order, us: seq<Unit>, model: Unit, d: string, name: string)
    requires TotalPreorder(leq)
    ensures
      var once := Upsert(leq, us, model, d, name);
      Upsert(leq, once, model, d, name) == once
  {
    hide Upsert, Find, Clone, Spread;
    var once, next := Upsert(leq, us, model, d, name), Clone(model, d, name);
    FindUpserted(leq, us, model, d, name, d);
    SpreadOfSame(next);
    if Find(us, d).Some? {
      SpreadTwice(Find(us, d).value, next);
    }
    UpsertOfSame(leq, once, model, d, name);
  }

  // ---------------------------------------------------------------- a list of corrections

  ghost predicate DistinctCodes(fixes: seq<Fix>) {
    forall i, j :: 0 <= i < j < |fixes| ==> fixes[i].code != fixes[j].code
  }

  ghost predicate NotAmong(d: string, fixes: seq<Fix>) {
    forall f :: f in fixes ==> f.code != d
  }

  lemma {:induction false} EachFindsOthers(leq: Order, us: seq<Unit>, model: Unit, fixes: seq<Fix>, d: string)
    requires TotalPreorder(leq) && NotAmong(d, fixes)
    ensures Find(UpsertEach(leq, us, model, fixes), d) == Find(us, d)
    decreases |fixes|
  {
    if fixes == [] {
    } else {
      hide Find, Upsert;
      EachFindsOthers(leq, Upsert(leq, us, model, fixes[0].code, fixes[0].name), model, fixes[1..], d);
      FindUpserted(leq, us, model, fixes[0].code, fixes[0].name, d);
    }
  }

  /** After the corrections every code is there under its name. */
  lemma {:induction false} EachIsNamed(leq: Order, us: seq<Unit>, model: Unit, fixes: seq<Fix>, f: Fix)
    requires TotalPreorder(leq) && DistinctCodes(fixes) && f in fixes
    ensures Named(UpsertEach(leq, us, model, fixes), f.code, f.name)
    decreases |fixes|
  {
    hide Find, Upsert;
    var first := Upsert(leq, us, model, fixes[0].code, fixes[0].name);
    if f in fixes[1..] {
      EachIsNamed(leq, first, model, fixes[1..], f);
    } else {
      UpsertedIsStamped(leq, us, model, f.code, f.name);
      NotAmongRest(fixes);
      EachFindsOthers(leq, first, model, fixes[1..], f.code);
    }
  }

  lemma NotAmongRest(fixes: seq<Fix>)
    requires fixes != [] && DistinctCodes(fixes)
    ensures NotAmong(fixes[0].code, fixes[1..]) && DistinctCodes(fixes[1..])
  {
  }

  /** Making corrections that show already shows the same. */
  lemma {:induction false} EachShowsSame(leq: Order, us: seq<Unit>, model: Unit, fixes: seq<Fix>)
    requires TotalPreorder(leq) && forall f :: f in fixes ==> Named(us, f.code, f.name)
    ensures Shown(UpsertEach(leq, us, model, fixes)) == Shown(us)
    decreases |fixes|
  {
    if fixes == [] {
    } else {
      hide Find, Upsert, Shown, Named;
      var f := fixes[0];
      var first := Upsert(leq, us, model, f.code, f.name);
      UpsertShowsSame(leq, us, model, f.code, f.name);
      forall g | g in fixes[1..]
        ensures Named(first, g.code, g.name)
      {
        StillNamed(leq, us, model, f, g);
      }
      EachShowsSame(leq, first, model, fixes[1..]);
    }
  }

  lemma StillNamed(leq: Order, us: seq<Unit>, model: Unit, f: Fix, g: Fix)
    requires TotalPreorder(leq) && Named(us, f.code, f.name) && Named(us, g.code, g.name)
    ensures Named(Upsert(leq, us, model, f.code, f.name), g.code, g.name)
  {
    hide Find, Upsert;
    FindUpserted(leq, us, model, f.code, f.name, g.code);
  }

  /** Making the same corrections from the same model again changes nothing. */
  lemma {:induction false} EachAgain(leq: Order, us: seq<Unit>, model: Unit, fixes: seq<Fix>)
    requires forall f :: f in fixes ==> Holds(us, model, f)
    ensures UpsertEach(leq, us, model, fixes) == us
    decreases |fixes|
  {
    if fixes == [] {
    } else {
      hide Upsert, Holds;
      HeldStays(leq, us, model, fixes[0]);
      EachAgain(leq, us, model, fixes[1..]);
    }
  }

  /** The record of a correction is there and already has everything the model would give it. */
  predicate Holds(us: seq<Unit>, model: Unit, f: Fix) {
    Find(us, f.code).Some? && Spread(Find(us, f.code).value, Clone(model, f.code, f.name)) == Find(us, f.code).value
  }

  lemma HeldStays(leq: Order, us: seq<Unit>, model: Unit, f: Fix)
    requires Holds(us, model, f)
    ensures Upsert(leq, us, model, f.code, f.name) == us
  {
    UpsertOfSame(leq, us, model, f.code, f.name);
  }

  lemma UpsertedHolds(leq: Order, us: seq<Unit>, model: Unit, f: Fix)
    requires TotalPreorder(leq)
    ensures Holds(Upsert(leq, us, model, f.code, f.name), model, f)
  {
    hide Upsert, Find, Clone, Spread;
    var next := Clone(model, f.code, f.name);
    FindUpserted(leq, us, model, f.code, f.name, f.code);
    SpreadOfSame(next);
    if Find(us, f.code).Some? {
      SpreadTwice(Find(us, f.code).value, next);
    }
  }

  lemma {:induction false} EachHolds(leq: Order, us: seq<Unit>, model: Unit, fixes: seq<Fix>, f: Fix)
    requires TotalPreorder(leq) && DistinctCodes(fixes) && f in fixes
    ensures Holds(UpsertEach(leq, us, model, fixes), model, f)
    decreases |fixes|
  {
    hide Upsert, Find, Clone, Spread;
    var first := Upsert(leq, us, model, fixes[0].code, fixes[0].name);
    if f in fixes[1..] {
      EachHolds(leq, first, model, fixes[1..], f);
    } else {
      UpsertedHolds(leq, us, model, f);
      NotAmongRest(fixes);
      EachFindsOthers(leq, first, model, fixes[1..], f.code);
    }
  }

  // ---------------------------------------------------------------- Lalaipido

  lemma LalaipidoFixes()
    ensures DistinctCodes(LALAIPIDO_FIXES) && NotAmong(LALAIPIDO_MODEL, LALAIPIDO_FIXES)
    ensures forall f :: f in LALAIPIDO_FIXES ==> f.name != "" && f.code != "" && f.code !in REMOVED
    ensures LALAIPIDO_FIXES[0] in LALAIPIDO_FIXES
  {
  }

  /** A named unit that belongs stays where it is found. */
  lemma NamedIsKept(us: seq<Unit>, f: Fix)
    requires Named(us, f.code, f.name) && f.name != "" && f.code != "" && f.code !in REMOVED
    ensures Named(Keep(us, Belongs), f.code, f.name) && Find(Keep(us, Belongs), f.code) == Find(us, f.code)
  {
    FoundIsThere(us, f.code);
    FindKept(us, Belongs, f.code);
  }

  lemma AllBelong(us: seq<Unit>, u: Unit)
    requires u in Keep(us, Belongs)
    ensures Belongs(u)
  {
    KeptExactly(us, Belongs, u);
  }

  lemma SameShownBelong(us: seq<Unit>, vs: seq<Unit>)
    requires Shown(us) == Shown(vs) && forall u :: u in us ==> Belongs(u)
    ensures Keep(vs, Belongs) == vs
  {
    forall v | v in vs
      ensures Belongs(v)
    {
      var i :| 0 <= i < |vs| && vs[i] == v;
      assert Shown(us)[i] == Shown(vs)[i];
      assert us[i] in us;
    }
    KeepAll(vs, Belongs);
  }

  /** After one pass the list is not empty, all its units belong, and the corrections are in it. */
  lemma LalaipidoOnce(leq: Order, us: seq<Unit>)
    requires TotalPreorder(leq) && us != []
    ensures
      var once := AlignLalaipido(leq, us);
      && once != [] && (forall u :: u in once ==> Belongs(u))
      && forall f :: f in LALAIPIDO_FIXES ==> Named(once, f.code, f.name)
  {
    hide Find, Keep, UpsertEach, Belongs, Named;
    var model := Model(us, LALAIPIDO_MODEL).value;
    var upserted := UpsertEach(leq, us, model, LALAIPIDO_FIXES);
    var once := AlignLalaipido(leq, us);
    LalaipidoFixes();
    forall f | f in LALAIPIDO_FIXES
      ensures Named(once, f.code, f.name)
    {
      EachIsNamed(leq, us, model, LALAIPIDO_FIXES, f);
      NamedIsKept(upserted, f);
    }
    forall u | u in once
      ensures Belongs(u)
    {
      AllBelong(upserted, u);
    }
    NamedInNothing(once, LALAIPIDO_FIXES[0]);
  }

  lemma NamedInNothing(us: seq<Unit>, f: Fix)
    requires Named(us, f.code, f.name)
    ensures us != []
  {
  }

  lemma LalaipidoShowsSame(leq: Order, us: seq<Unit>)
    requires TotalPreorder(leq)
    ensures Shown(AlignLalaipido(leq, AlignLalaipido(leq, us))) == Shown(AlignLalaipido(leq, us))
  {
    if us != [] {
      hide Find, Keep, UpsertEach, Belongs, Named, Shown;
      var once := AlignLalaipido(leq, us);
      LalaipidoOnce(leq, us);
      var model := Model(once, LALAIPIDO_MODEL).value;
      EachShowsSame(leq, once, model, LALAIPIDO_FIXES);
      SameShownBelong(once, UpsertEach(leq, once, model, LALAIPIDO_FIXES));
    }
  }

  /** The unit the corrections are copied from is there and has a name. */
  predicate ModelIsNamed(us: seq<Unit>) {
    Find(us, LALAIPIDO_MODEL).Some? && Find(us, LALAIPIDO_MODEL).value.name != ""
  }

  lemma LalaipidoIsFixed(leq: Order, us: seq<Unit>)
    requires TotalPreorder(leq) && ModelIsNamed(us)
    ensures AlignLalaipido(leq, AlignLalaipido(leq, us)) == AlignLalaipido(leq, us)
  {
    var model := Find(us, LALAIPIDO_MODEL).value;
    var upserted := UpsertEach(leq, us, model, LALAIPIDO_FIXES);
    var once := Keep(upserted, Belongs);
    LalaipidoFixes();
    FoundInNothing(us, LALAIPIDO_MODEL);
    LalaipidoOnce(leq, us);
    EachFindsOthers(leq, us, model, LALAIPIDO_FIXES, LALAIPIDO_MODEL);
    ModelIsKept(upserted);
    forall f | f in LALAIPIDO_FIXES
      ensures Holds(once, model, f)
    {
      EachHolds(leq, us, model, LALAIPIDO_FIXES, f);
      EachIsNamed(leq, us, model, LALAIPIDO_FIXES, f);
      NamedIsKept(upserted, f);
    }
    EachAgain(leq, once, model, LALAIPIDO_FIXES);
    KeepAll(once, Belongs);
  }

  /** The record of a correction after the first pass. */
  ghost function RecordAfter(us: seq<Unit>, f: Fix): Unit
    requires us != []
  {
    var copy := Clone(Model(us, LALAIPIDO_MODEL).value, f.code, f.name);
    if Find(us, f.code).Some? then Spread(Find(us, f.code).value, copy) else copy
  }

  /** The unit the second pass copies from. */
  ghost function NextModel(leq: Order, us: seq<Unit>): Unit {
    var once := AlignLalaipido(leq, us);
    if Find(once, LALAIPIDO_MODEL).Some? then Find(once, LALAIPIDO_MODEL).value else FirstOf(once)
  }

  /** The second pass changes nothing exactly if this holds. */
  ghost predicate LalaipidoIsStable(leq: Order, us: seq<Unit>) {
    || us == []
    || ModelIsNamed(us)
    || forall f :: f in LALAIPIDO_FIXES ==> GivesNothing(RecordAfter(us, f), NextModel(leq, us), f.code, f.name)
  }

  lemma {:induction false} EachRecord(leq: Order, us: seq<Unit>, model: Unit, fixes: seq<Fix>, f: Fix)
    requires TotalPreorder(leq) && DistinctCodes(fixes) && f in fixes
    ensures
      var copy := Clone(model, f.code, f.name);
      Find(UpsertEach(leq, us, model, fixes), f.code)
      == Some(if Find(us, f.code).Some? then Spread(Find(us, f.code).value, copy) else copy)
    decreases |fixes|
  {
    hide Find, Upsert, Clone, Spread;
    var first := Upsert(leq, us, model, fixes[0].code, fixes[0].name);
    NotAmongRest(fixes);
    FindUpserted(leq, us, model, fixes[0].code, fixes[0].name, f.code);
    if f in fixes[1..] {
      EachRecord(leq, first, model, fixes[1..], f);
    } else {
      EachFindsOthers(leq, first, model, fixes[1..], f.code);
    }
  }

  /** The corrections are in the list after the first pass, each as that record. */
  lemma RecordIsThere(leq: Order, us: seq<Unit>, f: Fix)
    requires TotalPreorder(leq) && us != [] && f in LALAIPIDO_FIXES
    ensures Find(AlignLalaipido(leq, us), f.code) == Some(RecordAfter(us, f))
  {
    hide Find, Clone, Spread, UpsertEach, Named, Keep;
    var model := Model(us, LALAIPIDO_MODEL).value;
    LalaipidoFixes();
    EachRecord(leq, us, model, LALAIPIDO_FIXES, f);
    EachIsNamed(leq, us, model, LALAIPIDO_FIXES, f);
    NamedIsKept(UpsertEach(leq, us, model, LALAIPIDO_FIXES), f);
  }

  /** The second pass is its corrections alone; it changes nothing iff they find everything there. */
  lemma SecondPassIsCorrections(leq: Order, us: seq<Unit>)
    requires TotalPreorder(leq) && us != []
    ensures
      var once := AlignLalaipido(leq, us);
      AlignLalaipido(leq, once) == UpsertEach(leq, once, NextModel(leq, us), LALAIPIDO_FIXES)
  {
    var once := AlignLalaipido(leq, us);
    LalaipidoOnce(leq, us);
    hide Find, Keep, UpsertEach, Belongs, Named, Shown;
    var next := NextModel(leq, us);
    assert Model(once, LALAIPIDO_MODEL) == Some(next);
    EachShowsSame(leq, once, next, LALAIPIDO_FIXES);
    SameShownBelong(once, UpsertEach(leq, once, next, LALAIPIDO_FIXES));
  }

  lemma HoldsExactly(us: seq<Unit>, model: Unit, f: Fix)
    requires Named(us, f.code, f.name)
    ensures Holds(us, model, f) <==> GivesNothing(Find(us, f.code).value, model, f.code, f.name)
  {
    FoundIsThere(us, f.code);
    hide Clone, Spread, Find;
    GivesNothingExactly(Find(us, f.code).value, model, f.code, f.name);
  }

  lemma LalaipidoIsFixedExactly(leq: Order, us: seq<Unit>)
    requires TotalPreorder(leq)
    ensures AlignLalaipido(leq, AlignLalaipido(leq, us)) == AlignLalaipido(leq, us) <==> LalaipidoIsStable(leq, us)
  {
    if us == [] {
      NoModel(LALAIPIDO_MODEL);
    } else if ModelIsNamed(us) {
      LalaipidoIsFixed(leq, us);
    } else {
      LalaipidoWithoutModel(leq, us);
    }
  }

  lemma LalaipidoWithoutModel(leq: Order, us: seq<Unit>)
    requires TotalPreorder(leq) && us != []
    ensures AlignLalaipido(leq, AlignLalaipido(leq, us)) == AlignLalaipido(leq, us)
      <==> forall f :: f in LALAIPIDO_FIXES ==> GivesNothing(RecordAfter(us, f), NextModel(leq, us), f.code, f.name)
  {
    hide AlignLalaipido, RecordAfter, NextModel, GivesNothing, UpsertEach, Holds, Named, Find;
    var once, next := AlignLalaipido(leq, us), NextModel(leq, us);
    SecondPassIsCorrections(leq, us);
    LalaipidoOnce(leq, us);
    LalaipidoFixes();
    forall f | f in LALAIPIDO_FIXES
      ensures Holds(once, next, f) <==> GivesNothing(RecordAfter(us, f), next, f.code, f.name)
      ensures Holds(UpsertEach(leq, once, next, LALAIPIDO_FIXES), next, f)
    {
      RecordIsThere(leq, us, f);
      HoldsExactly(once, next, f);
      EachHolds(leq, once, next, LALAIPIDO_FIXES, f);
    }
    if forall f :: f in LALAIPIDO_FIXES ==> Holds(once, next, f) {
      EachAgain(leq, once, next, LALAIPIDO_FIXES);
    }
  }

  lemma ModelIsKept(us: seq<Unit>)
    requires ModelIsNamed(us)
    ensures Find(Keep(us, Belongs), LALAIPIDO_MODEL) == Find(us, LALAIPIDO_MODEL)
  {
    FoundIsThere(us, LALAIPIDO_MODEL);
    assert LALAIPIDO_MODEL != "" && LALAIPIDO_MODEL !in REMOVED;
    FindKept(us, Belongs, LALAIPIDO_MODEL);
  }

  // ---------------------------------------------------------------- Lapan

  lemma {:induction false} LapanFindsOthers(
      leq: Order, us: seq<Unit>, lalaipido: Option<seq<Unit>>, model: Unit, fixes: seq<Fix>, d: string)
    requires TotalPreorder(leq) && NotAmong(d, fixes)
    ensures Find(UpsertLapan(leq, us, lalaipido, model, fixes), d) == Find(us, d)
    decreases |fixes|
  {
    if fixes == [] {
    } else {
      hide Find, Upsert, Source;
      var f := fixes[0];
      var source := Source(us, f, lalaipido, model);
      LapanFindsOthers(leq, Upsert(leq, us, source, f.code, f.name), lalaipido, model, fixes[1..], d);
      FindUpserted(leq, us, source, f.code, f.name, d);
    }
  }

  predicate IsIn(us: seq<Unit>, f: Fix) {
    Find(us, f.code).Some? && Stamped(Find(us, f.code).value, f.code, f.name)
  }

  lemma {:induction false} LapanIsIn(
      leq: Order, us: seq<Unit>, lalaipido: Option<seq<Unit>>, model: Unit, fixes: seq<Fix>, f: Fix)
    requires TotalPreorder(leq) && DistinctCodes(fixes) && f in fixes
    ensures IsIn(UpsertLapan(leq, us, lalaipido, model, fixes), f)
    decreases |fixes|
  {
    hide Find, Upsert, Source, Stamped;
    var source := Source(us, fixes[0], lalaipido, model);
    var first := Upsert(leq, us, source, fixes[0].code, fixes[0].name);
    NotAmongRest(fixes);
    if f in fixes[1..] {
      LapanIsIn(leq, first, lalaipido, model, fixes[1..], f);
    } else {
      UpsertedIsStamped(leq, us, source, f.code, f.name);
      LapanFindsOthers(leq, first, lalaipido, model, fixes[1..], f.code);
    }
  }

  /** The unit a Lapan record is made of: its own, else one misplaced in Lalaipido, else the template. */
  ghost predicate IsSource(us: seq<Unit>, f: Fix, lalaipido: Option<seq<Unit>>, model: Unit, source: Unit) {
    if Find(us, f.code).Some? then source == Find(us, f.code).value
    else if f.misplaced.Some? && lalaipido.Some? && Find(lalaipido.value, f.misplaced.value).Some?
    then source == Clone(Find(lalaipido.value, f.misplaced.value).value, f.code, f.name)
    else source == model
  }

  /** What each Lapan unit's record is after the corrections. */
  lemma {:induction false} LapanRecord(
      leq: Order, us: seq<Unit>, lalaipido: Option<seq<Unit>>, model: Unit, fixes: seq<Fix>, f: Fix)
    returns (source: Unit)
    requires TotalPreorder(leq) && DistinctCodes(fixes) && f in fixes
    ensures IsSource(us, f, lalaipido, model, source)
    ensures
      var copy := Clone(source, f.code, f.name);
      Find(UpsertLapan(leq, us, lalaipido, model, fixes), f.code)
      == Some(if Find(us, f.code).Some? then Spread(Find(us, f.code).value, copy) else copy)
    decreases |fixes|
  {
    hide Find, Upsert, Clone, Spread;
    source := Source(us, fixes[0], lalaipido, model);
    var first := Upsert(leq, us, source, fixes[0].code, fixes[0].name);
    NotAmongRest(fixes);
    FindUpserted(leq, us, source, fixes[0].code, fixes[0].name, f.code);
    if f in fixes[1..] {
      source := LapanRecord(leq, first, lalaipido, model, fixes[1..], f);
    } else {
      LapanFindsOthers(leq, first, lalaipido, model, fixes[1..], f.code);
      assert IsSource(us, f, lalaipido, model, source);
    }
  }

  /** Zange's unit takes the record that stood in Wuro Tale over its own, or is stamped again where it stands. */
  lemma ZangeRecord(leq: Order, us: seq<Unit>, wuroTale: Option<seq<Unit>>)
    requires TotalPreorder(leq)
    ensures
      var moved := if wuroTale.Some? then Find(wuroTale.value, WURO_TALE_CODE) else None;
      var own := Find(us, ZANGE_CODE);
      Find(AlignZange(leq, us, wuroTale), ZANGE_CODE)
      == if moved.Some? && own.Some? then Some(Spread(own.value, Clone(moved.value, ZANGE_CODE, ZANGE_NAME)))
         else if moved.Some? then Some(Clone(moved.value, ZANGE_CODE, ZANGE_NAME))
         else if own.Some? then Some(Spread(own.value, Clone(own.value, ZANGE_CODE, ZANGE_NAME)))
         else None
  {
    hide Upsert, Clone, Spread;
    var source := MovedZange(us, wuroTale);
    if source.Some? {
      FindUpserted(leq, us, source.value, ZANGE_CODE, ZANGE_NAME, ZANGE_CODE);
    }
  }

  lemma {:induction false} LapanAgain(leq: Order, us: seq<Unit>, lalaipido: Option<seq<Unit>>, model: Unit,
      fixes: seq<Fix>)
    requires TotalPreorder(leq) && forall f :: f in fixes ==> IsIn(us, f)
    ensures UpsertLapan(leq, us, lalaipido, model, fixes) == us
    decreases |fixes|
  {
    if fixes == [] {
    } else {
      hide IsIn;
      ItselfAgain(leq, us, lalaipido, model, fixes[0]);
      LapanAgain(leq, us, lalaipido, model, fixes[1..]);
    }
  }

  lemma ItselfAgain(leq: Order, us: seq<Unit>, lalaipido: Option<seq<Unit>>, model: Unit, f: Fix)
    requires TotalPreorder(leq) && IsIn(us, f)
    ensures Upsert(leq, us, Source(us, f, lalaipido, model), f.code, f.name) == us
  {
    UpsertWithItself(leq, us, f.code, f.name);
  }

  lemma {:induction false} ReplacedMembers(us: seq<Unit>, d: string, v: Unit, u: Unit)
    requires Find(us, d).Some? && u in ReplaceFirst(us, d, v)
    ensures u in us || u == v
  {
    if us[0].delimitation != Some(d) && u != us[0] {
      ReplacedMembers(us[1..], d, v, u);
    }
  }

  lemma UpsertedMembers(leq: Order, us: seq<Unit>, source: Unit, f: Fix, u: Unit)
    requires TotalPreorder(leq) && u in Upsert(leq, us, source, f.code, f.name)
    ensures u in us || (u.delimitation == Some(f.code) && u.name == f.name)
  {
    var next := Clone(source, f.code, f.name);
    if Find(us, f.code).Some? {
      ReplacedMembers(us, f.code, Spread(Find(us, f.code).value, next), u);
    } else {
      SortPermutes(ByDelimitation(leq), us + [next]);
      assert u in multiset(us + [next]);
    }
  }

  lemma {:induction false} LapanStaysNamed(
      leq: Order, us: seq<Unit>, lalaipido: Option<seq<Unit>>, model: Unit, fixes: seq<Fix>)
    requires TotalPreorder(leq) && (forall u :: u in us ==> IsNamed(u))
    requires forall f :: f in fixes ==> f.name != "" && f.code != ""
    ensures forall u :: u in UpsertLapan(leq, us, lalaipido, model, fixes) ==> IsNamed(u)
    decreases |fixes|
  {
    if fixes == [] {
    } else {
      hide Upsert, Source;
      var f := fixes[0];
      var source := Source(us, f, lalaipido, model);
      var first := Upsert(leq, us, source, f.code, f.name);
      forall u | u in first
        ensures IsNamed(u)
      {
        UpsertedMembers(leq, us, source, f, u);
      }
      LapanStaysNamed(leq, first, lalaipido, model, fixes[1..]);
    }
  }

  lemma LapanFixes()
    ensures DistinctCodes(LAPAN_FIXES)
    ensures forall f :: f in LAPAN_FIXES ==> f.name != "" && f.code != ""
    ensures LAPAN_FIXES[0] in LAPAN_FIXES
  {
  }

  lemma AllNamed(us: seq<Unit>)
    ensures forall u :: u in Keep(us, IsNamed) ==> IsNamed(u)
  {
    forall u | u in Keep(us, IsNamed)
      ensures IsNamed(u)
    {
      KeptExactly(us, IsNamed, u);
    }
  }

  lemma LapanOnce(leq: Order, us: seq<Unit>, lalaipido: Option<seq<Unit>>)
    requires TotalPreorder(leq) && Keep(us, IsNamed) != []
    ensures
      var once := AlignLapan(leq, us, lalaipido);
      && once != [] && (forall u :: u in once ==> IsNamed(u))
      && forall f :: f in LAPAN_FIXES ==> IsIn(once, f)
  {
    hide Keep, UpsertLapan, Find, IsIn, IsNamed;
    var kept := Keep(us, IsNamed);
    var model := Model(kept, LAPAN_MODEL).value;
    LapanFixes();
    AllNamed(us);
    forall f | f in LAPAN_FIXES
      ensures IsIn(AlignLapan(leq, us, lalaipido), f)
    {
      LapanIsIn(leq, kept, lalaipido, model, LAPAN_FIXES, f);
    }
    LapanStaysNamed(leq, kept, lalaipido, model, LAPAN_FIXES);
    InNothing(AlignLapan(leq, us, lalaipido), LAPAN_FIXES[0]);
  }

  lemma InNothing(us: seq<Unit>, f: Fix)
    requires IsIn(us, f)
    ensures us != []
  {
  }

  lemma NoModel(code: string)
    ensures Model([], code) == None
  {
  }

  /** The second pass changes nothing, whatever has become of Lalaipido in between. */
  lemma LapanIsFixed(leq: Order, us: seq<Unit>, lalaipido: Option<seq<Unit>>, later: Option<seq<Unit>>)
    requires TotalPreorder(leq)
    ensures
      var once := AlignLapan(leq, us, lalaipido);
      AlignLapan(leq, once, later) == once
  {
    hide Keep, UpsertLapan, Find, IsIn, IsNamed;
    var once := AlignLapan(leq, us, lalaipido);
    if Keep(us, IsNamed) == [] {
      KeepAll([], IsNamed);
      NoModel(LAPAN_MODEL);
    } else {
      LapanOnce(leq, us, lalaipido);
      KeepAll(once, IsNamed);
      LapanAgain(leq, once, later, Model(once, LAPAN_MODEL).value, LAPAN_FIXES);
    }
  }

  // ---------------------------------------------------------------- the whole register

  predicate SameShown(a: Option<seq<Unit>>, b: Option<seq<Unit>>) {
    (a.Some? <==> b.Some?) && (a.Some? ==> Shown(a.value) == Shown(b.value))
  }

  /**
   * Applied to its own output the alignment shows the same delimitations and names in the same
   * order; in Wuro Tale, Zange and Lapan the whole records are the same.
   */
  lemma AlignmentIsFixed(leq: Order, w: Wards)
    requires TotalPreorder(leq)
    ensures
      var once, twice := Align(leq, w), Align(leq, Align(leq, w));
      && twice.wuroTale == once.wuroTale && twice.zange == once.zange && twice.lapan == once.lapan
      && SameShown(twice.kaltungoWest, once.kaltungoWest) && SameShown(twice.lalaipido, once.lalaipido)
  {
    hide AlignZange, AlignKaltungo, AlignLalaipido, AlignLapan, Keep;
    if w.wuroTale.Some? {
      MovedUnitIsGone(w.wuroTale.value);
    }
    if w.zange.Some? {
      ZangeIsFixed(leq, w.zange.value, w.wuroTale);
      assert Align(leq, w).wuroTale == Change(w.wuroTale, vs => Keep(vs, NotMoved));
    }
    if w.kaltungoWest.Some? {
      KaltungoShowsSame(leq, w.kaltungoWest.value);
    }
    if w.lalaipido.Some? {
      LalaipidoShowsSame(leq, w.lalaipido.value);
    }
    if w.lapan.Some? {
      LapanIsFixed(leq, w.lapan.value, w.lalaipido, Align(leq, w).lalaipido);
    }
  }

  /** Neither ward with a template has a record that a second copy would change. */
  ghost predicate AreStable(leq: Order, w: Wards) {
    && (w.kaltungoWest.Some? ==> KaltungoIsStable(leq, w.kaltungoWest.value))
    && (w.lalaipido.Some? ==> LalaipidoIsStable(leq, w.lalaipido.value))
  }

  /** The whole register is the same after a second pass exactly if both wards with a template are stable. */
  lemma AlignmentIsFixedExactly(leq: Order, w: Wards)
    requires TotalPreorder(leq)
    ensures Align(leq, Align(leq, w)) == Align(leq, w) <==> AreStable(leq, w)
  {
    hide AlignZange, AlignKaltungo, AlignLalaipido, AlignLapan, Keep, KaltungoIsStable, LalaipidoIsStable;
    AlignmentIsFixed(leq, w);
    if w.kaltungoWest.Some? {
      KaltungoIsFixedExactly(leq, w.kaltungoWest.value);
    }
    if w.lalaipido.Some? {
      LalaipidoIsFixedExactly(leq, w.lalaipido.value);
    }
  }

  /** The whole records are the same in all wards when the units to copy from are there. */
  lemma AlignmentIsFixedInFull(leq: Order, w: Wards)
    requires TotalPreorder(leq)
    requires w.kaltungoWest.Some? ==> Find(w.kaltungoWest.value, KALTUNGO_MODEL).Some?
    requires w.lalaipido.Some? ==> ModelIsNamed(w.lalaipido.value)
    ensures Align(leq, Align(leq, w)) == Align(leq, w)
  {
    hide Align, Find, ModelIsNamed;
    AlignmentIsFixedExactly(leq, w);
  }

  /**
   * Without that unit the second pass may copy from another: here the list starts with a unit that the
   * sort of the first pass moves behind another, so the second pass takes that one's place name over.
   */
  lemma WithoutModelRecordsMayChange(leq: Order, c: string, d: string)
    requires NeitherCode(c) && NeitherCode(d) && leq(c, d) && !leq(d, c) && leq(d, KALTUNGO_CODE)
    ensures exists us :: AlignKaltungo(leq, AlignKaltungo(leq, us)) != AlignKaltungo(leq, us)
  {
    hide AlignKaltungo, NeitherCode, Clone, Spread;
    var place := Other("place");
    var y := Unit(Some(c), "y", map[place := Some("y")]);
    var z := Unit(Some(d), "z", map[place := Some("z")]);
    var once := AlignKaltungo(leq, [z, y]);
    FirstPass(leq, y, z);
    SecondPass(leq, y, z, once[2]);
    AttributesOver(once[2], y, place);
    AttributesOver(z, z, place);
    assert AlignKaltungo(leq, once)[2] != once[2];
  }

  predicate NeitherCode(d: string) {
    d != KALTUNGO_MODEL && d != KALTUNGO_CODE
  }

  /** The copy has every further attribute of the model. */
  lemma AttributesOver(u: Unit, model: Unit, a: Attribute)
    requires a.Other? && a in model.rest
    ensures
      var copy := Clone(model, KALTUNGO_CODE, KALTUNGO_NAME);
      && a in copy.rest && copy.rest[a] == model.rest[a]
      && a in Spread(u, copy).rest && Spread(u, copy).rest[a] == model.rest[a]
  {
    CloneKeeps(model, KALTUNGO_CODE, KALTUNGO_NAME, a);
    hide Clone;
  }

  lemma CloneKeeps(model: Unit, d: string, name: string, a: Attribute)
    requires a.Other? && a in model.rest
    ensures a in Clone(model, d, name).rest && Clone(model, d, name).rest[a] == model.rest[a]
  {
    StampIsFixed(d, a);
    hide Stamp;
  }

  lemma StampIsFixed(d: string, a: Attribute)
    requires a.Other?
    ensures a !in Stamp(d)
  {
  }

  lemma FirstPass(leq: Order, y: Unit, z: Unit)
    requires y.delimitation.Some? && NeitherCode(y.delimitation.value)
    requires z.delimitation.Some? && NeitherCode(z.delimitation.value)
    requires leq(y.delimitation.value, z.delimitation.value) && !leq(z.delimitation.value, y.delimitation.value)
    requires leq(z.delimitation.value, KALTUNGO_CODE)
    ensures AlignKaltungo(leq, [z, y]) == [y, z, Clone(z, KALTUNGO_CODE, KALTUNGO_NAME)]
    ensures Clone(z, KALTUNGO_CODE, KALTUNGO_NAME).delimitation == Some(KALTUNGO_CODE)
  {
    hide StableSort, Stamp;
    var next := Clone(z, KALTUNGO_CODE, KALTUNGO_NAME);
    SortOfThree(leq, y, z, next);
    NotFoundInTwo(z, y, KALTUNGO_MODEL);
    NotFoundInTwo(z, y, KALTUNGO_CODE);
    assert [z, y] + [next] == [z, y, next];
  }

  lemma NotFoundInTwo(y: Unit, z: Unit, d: string)
    requires y.delimitation != Some(d) && z.delimitation != Some(d)
    ensures Find([y, z], d) == None
  {
    assert [y, z][1..] == [z] && [z][1..] == [];
    assert Find([], d) == None;
    assert Find([z], d) == None;
  }

  lemma SecondPass(leq: Order, y: Unit, z: Unit, next: Unit)
    requires y.delimitation.Some? && NeitherCode(y.delimitation.value)
    requires z.delimitation.Some? && NeitherCode(z.delimitation.value)
    requires next.delimitation == Some(KALTUNGO_CODE)
    ensures AlignKaltungo(leq, [y, z, next]) == [y, z, Spread(next, Clone(y, KALTUNGO_CODE, KALTUNGO_NAME))]
  {
    hide StableSort, Clone, Spread;
    assert KALTUNGO_MODEL != KALTUNGO_CODE;
    NotFoundInTwo(y, z, KALTUNGO_MODEL);
    NotFoundInTwo(y, z, KALTUNGO_CODE);
    FindAppended([y, z], next, KALTUNGO_MODEL);
    FindAppended([y, z], next, KALTUNGO_CODE);
    assert [y, z] + [next] == [y, z, next];
    var again := Spread(next, Clone(y, KALTUNGO_CODE, KALTUNGO_NAME));
    assert [y, z, next][1..] == [z, next] && [z, next][1..] == [next] && [next][1..] == [];
    assert Find([next], KALTUNGO_CODE).Some? && ReplaceFirst([next], KALTUNGO_CODE, again) == [again] + [];
    assert Find([z, next], KALTUNGO_CODE).Some? && ReplaceFirst([z, next], KALTUNGO_CODE, again) == [z] + [again];
  }

  lemma SortOfThree(leq: Order, y: Unit, z: Unit, last: Unit)
    requires leq(SortKey(y), SortKey(z)) && !leq(SortKey(z), SortKey(y)) && leq(SortKey(z), SortKey(last))
    ensures StableSort(ByDelimitation(leq), [z, y, last]) == [y, z, last]
  {
    var order := ByDelimitation(leq);
    assert [z, y, last][..2] == [z, y] && [z, y][..1] == [z] && [z][..0] == [];
    assert StableSort(order, []) == [];
    assert StableSort(order, [z]) == [z];
    assert Insert(order, [], y) == [y];
    assert Insert(order, [z], y) == [y] + [z];
    assert StableSort(order, [z, y]) == [y, z];
  }

  /** What the alignment promises: moved and misplaced units are gone, INEC's units are there. */
  lemma AlignedUnits(leq: Order, w: Wards)
    requires TotalPreorder(leq)
    ensures
      var once := Align(leq, w);
      && (once.wuroTale.Some? ==> Find(once.wuroTale.value, WURO_TALE_CODE).None?)
      && (once.lalaipido.Some? ==> forall d :: d in REMOVED ==> Find(once.lalaipido.value, d).None?)
      && (once.lalaipido.Some? && w.lalaipido.value != [] ==>
            forall f :: f in LALAIPIDO_FIXES ==> Named(once.lalaipido.value, f.code, f.name))
      && (once.lapan.Some? && Keep(w.lapan.value, IsNamed) != [] ==>
            forall f :: f in LAPAN_FIXES ==> IsIn(once.lapan.value, f))
      && (once.kaltungoWest.Some? && w.kaltungoWest.value != [] ==>
            Named(once.kaltungoWest.value, KALTUNGO_CODE, KALTUNGO_NAME))
      && (once.zange.Some? && MovedZange(w.zange.value, w.wuroTale).Some? ==>
            IsIn(once.zange.value, Fix(ZANGE_CODE, ZANGE_NAME, None)))
  {
    hide AlignZange, AlignKaltungo, AlignLalaipido, AlignLapan, Keep, Find, Named, IsIn, MovedZange;
    if w.wuroTale.Some? {
      MovedUnitIsGone(w.wuroTale.value);
    }
    if w.lalaipido.Some? {
      RemovedUnitsAreGone(leq, w.lalaipido.value);
      if w.lalaipido.value != [] {
        LalaipidoOnce(leq, w.lalaipido.value);
      }
    }
    if w.lapan.Some? && Keep(w.lapan.value, IsNamed) != [] {
      LapanOnce(leq, w.lapan.value, w.lalaipido);
    }
    if w.kaltungoWest.Some? && w.kaltungoWest.value != [] {
      KaltungoIsNamed(leq, w.kaltungoWest.value);
    }
    if w.zange.Some? && MovedZange(w.zange.value, w.wuroTale).Some? {
      ZangeIsIn(leq, w.zange.value, w.wuroTale);
    }
  }

  lemma ZangeIsIn(leq: Order, us: seq<Unit>, wuroTale: Option<seq<Unit>>)
    requires TotalPreorder(leq) && MovedZange(us, wuroTale).Some?
    ensures IsIn(AlignZange(leq, us, wuroTale), Fix(ZANGE_CODE, ZANGE_NAME, None))
  {
    UpsertedIsStamped(leq, us, MovedZange(us, wuroTale).value, ZANGE_CODE, ZANGE_NAME);
  }

  lemma KaltungoIsNamed(leq: Order, us: seq<Unit>)
    requires TotalPreorder(leq) && us != []
    ensures Named(AlignKaltungo(leq, us), KALTUNGO_CODE, KALTUNGO_NAME)
  {
    UpsertedIsStamped(leq, us, Model(us, KALTUNGO_MODEL).value, KALTUNGO_CODE, KALTUNGO_NAME);
  }

  lemma RemovedUnitsAreGone(leq: Order, us: seq<Unit>)
    ensures forall d :: d in REMOVED ==> Find(AlignLalaipido(leq, us), d).None?
  {
    var model := Model(us, LALAIPIDO_MODEL);
    var upserted := if model.None? then us else UpsertEach(leq, us, model.value, LALAIPIDO_FIXES);
    forall d | d in REMOVED
      ensures Find(Keep(upserted, Belongs), d).None?
    {
      var kept := Keep(upserted, Belongs);
      FoundIsThere(kept, d);
      if Find(kept, d).Some? {
        AllBelong(upserted, Find(kept, d).value);
      }
    }
  }
}
