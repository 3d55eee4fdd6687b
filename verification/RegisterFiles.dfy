/** The register as it is corrected, ward by ward in place. */
module RegisterFiles {
  import opened Wrappers
  import opened Sorting
  import opened RegisterLists
  import opened RegisterAlignment

  class WardFile {
    const name: string
    var pollingUnits: seq<Unit>

    constructor (name: string, pollingUnits: seq<Unit>)
      ensures this.name == name && this.pollingUnits == pollingUnits
    {
      this.name := name;
      this.pollingUnits := pollingUnits;
    }

    method UpsertPu(leq: Order, template: Unit, delimitation: string, unitName: string)
      modifies this
      ensures pollingUnits == Upsert(leq, old(pollingUnits), template, delimitation, unitName)
    {
      var next := Clone(template, delimitation, unitName);
      var index := FindIndex(pollingUnits, delimitation);
      if index < |pollingUnits| {
        ReplaceAt(pollingUnits, index, delimitation, Spread(pollingUnits[index], next));
        pollingUnits := pollingUnits[index := Spread(pollingUnits[index], next)];
        return;
      }
      pollingUnits := pollingUnits + [next];
      pollingUnits := StableSort(ByDelimitation(leq), pollingUnits);
    }

    method Filter(p: Unit -> bool)
      modifies this
      ensures pollingUnits == Keep(old(pollingUnits), p)
    {
      var kept := [];
      for i := 0 to |pollingUnits|
        invariant pollingUnits == old(pollingUnits)
        invariant kept + Keep(pollingUnits[i..], p) == Keep(pollingUnits, p)
      {
        assert pollingUnits[i..][1..] == pollingUnits[i + 1..];
        if p(pollingUnits[i]) {
          kept := kept + [pollingUnits[i]];
        }
      }
      pollingUnits := kept;
    }
  }

  /** The place of the first record of a delimitation, or the length if there is none. */
  method FindIndex(us: seq<Unit>, d: string) returns (index: nat)
    ensures index <= |us| && (forall j | 0 <= j < index :: us[j].delimitation != Some(d))
    ensures Find(us, d) == if index < |us| then Some(us[index]) else None
    ensures index < |us| ==> us[index].delimitation == Some(d)
  {
    index := 0;
    while index < |us| && us[index].delimitation != Some(d)
      invariant index <= |us| && (forall j | 0 <= j < index :: us[j].delimitation != Some(d))
      invariant Find(us[index..], d) == Find(us, d)
    {
      assert us[index..][1..] == us[index + 1..];
      index := index + 1;
    }
  }

  lemma {:induction false} ReplaceAt(us: seq<Unit>, index: nat, d: string, u: Unit)
    requires index < |us| && us[index].delimitation == Some(d) && Find(us, d).Some?
    requires forall j | 0 <= j < index :: us[j].delimitation != Some(d)
    ensures ReplaceFirst(us, d, u) == us[index := u]
  {
    if index > 0 {
      ReplaceAt(us[1..], index - 1, d, u);
    }
  }

  datatype LgaFile = LgaFile(name: string, wards: seq<WardFile>)

  function WardNamed(wards: seq<WardFile>, name: string): (r: Option<WardFile>)
    ensures r.Some? ==> r.value.name == name
  {
    if wards == [] then None else if wards[0].name == name then Some(wards[0]) else WardNamed(wards[1..], name)
  }

  function FindWard(lgas: seq<LgaFile>, lga: string, ward: string): (r: Option<WardFile>)
    ensures r.Some? ==> r.value.name == ward
  {
    if lgas == [] then None
    else if lgas[0].name == lga then WardNamed(lgas[0].wards, ward)
    else FindWard(lgas[1..], lga, ward)
  }

  ghost function Files(ward: Option<WardFile>): set<WardFile> {
    if ward.Some? then {ward.value} else {}
  }

  ghost function Units(ward: Option<WardFile>): Option<seq<Unit>>
    reads Files(ward)
  {
    if ward.None? then None else Some(ward.value.pollingUnits)
  }

  function WuroTale(lgas: seq<LgaFile>): Option<WardFile> { FindWard(lgas, "DUKKU", "WURO TALE") }

  function Zange(lgas: seq<LgaFile>): Option<WardFile> { FindWard(lgas, "DUKKU", "ZANGE") }

  function KaltungoWest(lgas: seq<LgaFile>): Option<WardFile> { FindWard(lgas, "KALTUNGO", "KALTUNGO WEST") }

  function Lalaipido(lgas: seq<LgaFile>): Option<WardFile> { FindWard(lgas, "SHONGOM", "LALAIPIDO") }

  function Lapan(lgas: seq<LgaFile>): Option<WardFile> { FindWard(lgas, "SHONGOM", "LAPAN") }

  ghost function Wards5(lgas: seq<LgaFile>): set<WardFile> {
    Files(WuroTale(lgas)) + Files(Zange(lgas)) + Files(KaltungoWest(lgas)) + Files(Lalaipido(lgas)) + Files(Lapan(lgas))
  }

  ghost function Lists(lgas: seq<LgaFile>): Wards
    reads Wards5(lgas)
  {
    Wards(
      Units(WuroTale(lgas)), Units(Zange(lgas)), Units(KaltungoWest(lgas)), Units(Lalaipido(lgas)), Units(Lapan(lgas)))
  }

  /** The five wards are different objects, since they have different names. */
  lemma FiveWards(lgas: seq<LgaFile>)
    ensures var all := Wards5(lgas);
      Files(WuroTale(lgas)) <= all && Files(Zange(lgas)) <= all && Files(KaltungoWest(lgas)) <= all
      && Files(Lalaipido(lgas)) <= all && Files(Lapan(lgas)) <= all
    ensures Files(WuroTale(lgas)) !! Files(Zange(lgas)) !! Files(KaltungoWest(lgas))
      !! Files(Lalaipido(lgas)) !! Files(Lapan(lgas))
  {
    hide FindWard;
    assert "WURO TALE" != "LALAIPIDO" && "ZANGE" != "LAPAN";
  }

  method CorrectWuroTale(ward: Option<WardFile>)
    modifies Files(ward)
    ensures Units(ward) == Change(old(Units(ward)), us => Keep(us, NotMoved))
  {
    if ward.Some? {
      ward.value.Filter(NotMoved);
    }
  }

  method CorrectLalaipido(leq: Order, ward: Option<WardFile>)
    modifies Files(ward)
    ensures Units(ward) == Change(old(Units(ward)), us => AlignLalaipido(leq, us))
  {
    hide Upsert, Keep, Find;
    if ward.None? {
      return;
    }
    ghost var before := ward.value.pollingUnits;
    var template := Model(ward.value.pollingUnits, LALAIPIDO_MODEL);
    if template.Some? {
      var fixes := LALAIPIDO_FIXES;
      while fixes != []
        invariant UpsertEach(leq, ward.value.pollingUnits, template.value, fixes)
               == UpsertEach(leq, before, template.value, LALAIPIDO_FIXES)
        decreases |fixes|
      {
        ward.value.UpsertPu(leq, template.value, fixes[0].code, fixes[0].name);
        fixes := fixes[1..];
      }
    }
    ward.value.Filter(Belongs);
  }

  /** The units of Lapan that stand in Lalaipido, by their code there. */
  ghost predicate Collected(misplaced: map<string, Unit>, lalaipido: Option<seq<Unit>>, fixes: seq<Fix>) {
    forall f :: f in fixes && f.misplaced.Some? ==>
      var unit := if lalaipido.None? then None else Find(lalaipido.value, f.misplaced.value);
      (f.misplaced.value in misplaced <==> unit.Some?) && (unit.Some? ==> misplaced[f.misplaced.value] == unit.value)
  }

  method CollectMisplaced(lalaipido: Option<WardFile>) returns (misplaced: map<string, Unit>)
    ensures Collected(misplaced, Units(lalaipido), LAPAN_FIXES)
  {
    misplaced := map[];
    if lalaipido.Some? {
      for i := 0 to |LAPAN_FIXES|
        invariant Collected(misplaced, Units(lalaipido), LAPAN_FIXES[..i])
        invariant forall c :: c in misplaced ==> Find(lalaipido.value.pollingUnits, c) == Some(misplaced[c])
      {
        var fix := LAPAN_FIXES[i];
        if fix.misplaced.Some? {
          var unit := Find(lalaipido.value.pollingUnits, fix.misplaced.value);
          if unit.Some? {
            misplaced := misplaced[fix.misplaced.value := unit.value];
          }
        }
      }
    }
  }

  lemma CollectedFirst(misplaced: map<string, Unit>, lalaipido: Option<seq<Unit>>, fixes: seq<Fix>)
    requires Collected(misplaced, lalaipido, fixes) && fixes != []
    ensures Collected(misplaced, lalaipido, [fixes[0]]) && Collected(misplaced, lalaipido, fixes[1..])
  {
    assert fixes[0] in fixes;
  }

  method PickSource(
      us: seq<Unit>, fix: Fix, misplaced: map<string, Unit>, ghost lalaipido: Option<seq<Unit>>, template: Unit)
    returns (source: Unit)
    requires Collected(misplaced, lalaipido, [fix])
    ensures source == Source(us, fix, lalaipido, template)
  {
    assert fix in [fix];
    var present := Find(us, fix.code);
    if present.Some? {
      source := present.value;
    } else if fix.misplaced.Some? && fix.misplaced.value in misplaced {
      source := Clone(misplaced[fix.misplaced.value], fix.code, fix.name);
    } else {
      source := template;
    }
  }

  method CorrectLapan(leq: Order, ward: Option<WardFile>, misplaced: map<string, Unit>,
      ghost lalaipido: Option<seq<Unit>>)
    requires Collected(misplaced, lalaipido, LAPAN_FIXES)
    modifies Files(ward)
    ensures Units(ward) == Change(old(Units(ward)), us => AlignLapan(leq, us, lalaipido))
  {
    hide Collected, Upsert, Source, Find, Keep;
    if ward.None? {
      return;
    }
    ward.value.Filter(IsNamed);
    ghost var kept := ward.value.pollingUnits;
    var template := Model(ward.value.pollingUnits, LAPAN_MODEL);
    if template.Some? {
      var fixes := LAPAN_FIXES;
      while fixes != []
        invariant Collected(misplaced, lalaipido, fixes)
        invariant UpsertLapan(leq, ward.value.pollingUnits, lalaipido, template.value, fixes)
               == UpsertLapan(leq, kept, lalaipido, template.value, LAPAN_FIXES)
        decreases |fixes|
      {
        var fix := fixes[0];
        CollectedFirst(misplaced, lalaipido, fixes);
        var source := PickSource(ward.value.pollingUnits, fix, misplaced, lalaipido, template.value);
        ward.value.UpsertPu(leq, source, fix.code, fix.name);
        fixes := fixes[1..];
      }
    }
  }

  method FindMovedZange(wuroTale: Option<WardFile>, zange: Option<WardFile>) returns (moved: Option<Unit>)
    ensures zange.Some? ==> moved == MovedZange(zange.value.pollingUnits, Units(wuroTale))
  {
    moved := None;
    if wuroTale.Some? {
      moved := Find(wuroTale.value.pollingUnits, WURO_TALE_CODE);
    }
    if moved.None? && zange.Some? {
      moved := Find(zange.value.pollingUnits, ZANGE_CODE);
    }
  }

  method CorrectZange(leq: Order, ward: Option<WardFile>, moved: Option<Unit>, ghost wuroTale: Option<seq<Unit>>)
    requires ward.Some? ==> moved == MovedZange(ward.value.pollingUnits, wuroTale)
    modifies Files(ward)
    ensures Units(ward) == Change(old(Units(ward)), us => AlignZange(leq, us, wuroTale))
  {
    if ward.Some? && moved.Some? {
      ward.value.UpsertPu(leq, moved.value, ZANGE_CODE, ZANGE_NAME);
    }
  }

  method CorrectKaltungo(leq: Order, ward: Option<WardFile>)
    modifies Files(ward)
    ensures Units(ward) == Change(old(Units(ward)), us => AlignKaltungo(leq, us))
  {
    if ward.Some? {
      var template := Model(ward.value.pollingUnits, KALTUNGO_MODEL);
      if template.Some? {
        ward.value.UpsertPu(leq, template.value, KALTUNGO_CODE, KALTUNGO_NAME);
      }
    }
  }

  /** Correct the five wards in place; every other ward is left alone. */
  method ApplyGombeInecAlignment(leq: Order, lgas: seq<LgaFile>)
    modifies Wards5(lgas)
    ensures Lists(lgas) == Align(leq, old(Lists(lgas)))
  {
    hide AlignLalaipido, AlignLapan, AlignKaltungo, AlignZange, FindWard, Keep, Wards5, MovedZange, Collected;
    var wuroTale, zange, kaltungoWest := WuroTale(lgas), Zange(lgas), KaltungoWest(lgas);
    var lalaipido, lapan := Lalaipido(lgas), Lapan(lgas);
    FiveWards(lgas);
    ghost var before := Wards(Units(wuroTale), Units(zange), Units(kaltungoWest), Units(lalaipido), Units(lapan));
    assert before == Lists(lgas);
    var movedZange := FindMovedZange(wuroTale, zange);
    var misplaced := CollectMisplaced(lalaipido);
    CorrectWuroTale(wuroTale);
    CorrectLalaipido(leq, lalaipido);
    CorrectLapan(leq, lapan, misplaced, before.lalaipido);
    assert Units(zange) == before.zange;
    CorrectZange(leq, zange, movedZange, before.wuroTale);
    CorrectKaltungo(leq, kaltungoWest);
    assert Lists(lgas) == Wards(Units(wuroTale), Units(zange), Units(kaltungoWest), Units(lalaipido), Units(lapan));
  }
}
