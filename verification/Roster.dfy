/**
 * The roster of State Assembly seats: its validation against the register of wards, and the loop
 * that assigns wards to seats once the roster is valid.
 */
module Roster {
  import opened Wrappers

  type Name = string

  /** Brings a name to the form in which names are compared. */
  type Normalize = Name -> Name

  datatype WardRef = WardRef(lga: Name, name: Name)

  datatype Seat = Seat(code: string, lga: Name, lgaAliases: seq<Name>, wards: seq<Name>)

  predicate LgaMatchesSeat(norm: Normalize, lga: Name, seat: Seat) {
    norm(lga) == norm(seat.lga) || exists alias | alias in seat.lgaAliases :: norm(alias) == norm(lga)
  }

  /** The seat has the ward on its list. */
  predicate Lists(norm: Normalize, seat: Seat, ward: WardRef) {
    LgaMatchesSeat(norm, ward.lga, seat) && exists listed | listed in seat.wards :: norm(ward.name) == norm(listed)
  }

  // ---------------------------------------------------------------- entries and claims

  /** One ward name on one seat's list. */
  datatype Entry = Entry(seat: Seat, ward: Name)

  datatype Key = Key(lga: Name, name: Name)

  function KeyOf(norm: Normalize, e: Entry): Key {
    Key(norm(e.seat.lga), norm(e.ward))
  }

  function SeatEntries(seat: Seat, n: nat): seq<Entry>
    requires n <= |seat.wards|
  {
    seq(n, j requires 0 <= j < n => Entry(seat, seat.wards[j]))
  }

  function Entries(seats: seq<Seat>): seq<Entry> {
    if seats == [] then []
    else Entries(seats[..|seats| - 1]) + SeatEntries(seats[|seats| - 1], |seats[|seats| - 1].wards|)
  }

  /** The codes of the seats that claim a key, once for each entry. */
  function Claims(norm: Normalize, es: seq<Entry>, key: Key): seq<string> {
    if es == [] then []
    else
      var last := es[|es| - 1];
      Claims(norm, es[..|es| - 1], key) + if KeyOf(norm, last) == key then [last.seat.code] else []
  }

  ghost predicate NoClash(norm: Normalize, es: seq<Entry>) {
    forall i, j :: 0 <= i < j < |es| ==> KeyOf(norm, es[i]) != KeyOf(norm, es[j])
  }

  ghost predicate IsClaimed(norm: Normalize, es: seq<Entry>, key: Key) {
    exists i :: 0 <= i < |es| && KeyOf(norm, es[i]) == key
  }

  ghost predicate IsClaimedTwice(norm: Normalize, es: seq<Entry>, key: Key) {
    exists i, j :: 0 <= i < j < |es| && KeyOf(norm, es[i]) == key && KeyOf(norm, es[j]) == key
  }

  lemma OneMoreClaim(norm: Normalize, es: seq<Entry>, last: Entry, key: Key)
    ensures IsClaimed(norm, es + [last], key) <==> IsClaimed(norm, es, key) || KeyOf(norm, last) == key
    ensures IsClaimedTwice(norm, es + [last], key)
      <==> IsClaimedTwice(norm, es, key) || (IsClaimed(norm, es, key) && KeyOf(norm, last) == key)
  {
    var all := es + [last];
    assert all[|es|] == last && forall i | 0 <= i < |es| :: all[i] == es[i];
  }

  lemma {:induction false} ClaimsExactly(norm: Normalize, es: seq<Entry>, key: Key)
    ensures Claims(norm, es, key) == [] <==> !IsClaimed(norm, es, key)
    ensures |Claims(norm, es, key)| > 1 <==> IsClaimedTwice(norm, es, key)
  {
    if es == [] {
    } else {
      hide IsClaimed, IsClaimedTwice;
      ClaimsExactly(norm, es[..|es| - 1], key);
      OneMoreClaim(norm, es[..|es| - 1], es[|es| - 1], key);
      assert es == es[..|es| - 1] + [es[|es| - 1]];
    }
  }

  /** The claims of all the entries, by key. */
  ghost predicate Collected(norm: Normalize, es: seq<Entry>, claimed: map<Key, seq<string>>) {
    && (forall key :: (if key in claimed then claimed[key] else []) == Claims(norm, es, key))
    && (forall key :: key in claimed ==> claimed[key] != [])
  }

  lemma CollectedOneMore(norm: Normalize, es: seq<Entry>, claimed: map<Key, seq<string>>, e: Entry)
    requires Collected(norm, es, claimed)
    ensures
      var key := KeyOf(norm, e);
      Collected(norm, es + [e], claimed[key := (if key in claimed then claimed[key] else []) + [e.seat.code]])
  {
    assert (es + [e])[..|es + [e]| - 1] == es;
  }

  method CollectClaims(norm: Normalize, seats: seq<Seat>) returns (claimed: map<Key, seq<string>>)
    ensures Collected(norm, Entries(seats), claimed)
  {
    claimed := map[];
    assert seats[..0] == [];
    for i := 0 to |seats|
      invariant Collected(norm, Entries(seats[..i]), claimed)
    {
      claimed := ClaimSeat(norm, seats[i], claimed, Entries(seats[..i]));
      assert seats[..i + 1][..i] == seats[..i];
    }
    assert seats[..|seats|] == seats;
  }

  /** Enter the names on one seat's list. */
  method ClaimSeat(norm: Normalize, seat: Seat, before: map<Key, seq<string>>, ghost es: seq<Entry>)
    returns (claimed: map<Key, seq<string>>)
    requires Collected(norm, es, before)
    ensures Collected(norm, es + SeatEntries(seat, |seat.wards|), claimed)
  {
    hide Collected;
    claimed := before;
    assert es + SeatEntries(seat, 0) == es;
    for j := 0 to |seat.wards|
      invariant Collected(norm, es + SeatEntries(seat, j), claimed)
    {
      var key := Key(norm(seat.lga), norm(seat.wards[j]));
      var list := if key in claimed then claimed[key] else [];
      CollectedOneMore(norm, es + SeatEntries(seat, j), claimed, Entry(seat, seat.wards[j]));
      assert es + SeatEntries(seat, j) + [Entry(seat, seat.wards[j])] == es + SeatEntries(seat, j + 1);
      claimed := claimed[key := list + [seat.code]];
    }
  }

  // ---------------------------------------------------------------- validation

  const LGA_SEAT_COUNTS: seq<(Name, nat)> := [
    ("Akko", 3), ("Balanga", 2), ("Billiri", 2), ("Dukku", 2), ("Funakaye", 2), ("Gombe", 2),
    ("Kaltungo", 2), ("Kwami", 2), ("Nafada", 2), ("Shongom", 2), ("Yamaltu/Deba", 3)]

  const REQUIRED_SEATS: seq<string> := ["AKKO_CENTRAL", "DEBA", "PERO_CHONGE"]

  function SeatsIn(norm: Normalize, seats: seq<Seat>, lga: Name): nat {
    |set i | 0 <= i < |seats| && norm(seats[i].lga) == norm(lga)|
  }

  /** The right number of seats, overall and by LGA, with distinct codes and the required ones. */
  predicate WellFormed(norm: Normalize, seats: seq<Seat>) {
    && |seats| == 24
    && (forall code | code in REQUIRED_SEATS :: exists seat | seat in seats :: seat.code == code)
    && (forall i, j | 0 <= i < j < |seats| :: seats[i].code != seats[j].code)
    && (forall p | p in LGA_SEAT_COUNTS :: SeatsIn(norm, seats, p.0) == p.1)
  }

  predicate InRegister(norm: Normalize, register: seq<WardRef>, e: Entry) {
    exists row | row in register :: LgaMatchesSeat(norm, row.lga, e.seat) && norm(row.name) == norm(e.ward)
  }

  datatype Report = Report(ok: bool, clashes: set<Key>, leftovers: seq<WardRef>, unknown: seq<Entry>)

  /** A ward whose key is not claimed and that no seat lists. */
  ghost predicate IsLeftover(norm: Normalize, seats: seq<Seat>, claimed: map<Key, seq<string>>, w: WardRef) {
    Key(norm(w.lga), norm(w.name)) !in claimed && !IsListed(norm, seats, w)
  }

  predicate IsListed(norm: Normalize, seats: seq<Seat>, w: WardRef) {
    exists s | s in seats :: Lists(norm, s, w)
  }

  method FindLeftovers(norm: Normalize, register: seq<WardRef>, seats: seq<Seat>, claimed: map<Key, seq<string>>)
    returns (leftovers: seq<WardRef>)
    ensures forall w :: w in leftovers <==> w in register && IsLeftover(norm, seats, claimed, w)
  {
    leftovers := [];
    for i := 0 to |register|
      invariant forall w :: w in leftovers <==> w in register[..i] && IsLeftover(norm, seats, claimed, w)
    {
      hide IsListed;
      var ward := register[i];
      assert register[..i + 1] == register[..i] + [ward];
      if Key(norm(ward.lga), norm(ward.name)) !in claimed && !IsListed(norm, seats, ward) {
        leftovers := leftovers + [ward];
      }
    }
    assert register[..|register|] == register;
  }

  method FindUnknown(norm: Normalize, register: seq<WardRef>, entries: seq<Entry>) returns (unknown: seq<Entry>)
    ensures unknown == [] <==> register == [] || forall e :: e in entries ==> InRegister(norm, register, e)
  {
    unknown := [];
    var registerSet := set row | row in register :: Key(norm(row.lga), norm(row.name));
    for i := 0 to |entries|
      invariant unknown == [] <==> register == [] || forall e :: e in entries[..i] ==> InRegister(norm, register, e)
    {
      var e := entries[i];
      assert entries[..i + 1] == entries[..i] + [e];
      if |register| > 0 && !InRegister(norm, register, e) && KeyOf(norm, e) !in registerSet {
        unknown := unknown + [e];
      }
    }
    assert entries[..|entries|] == entries;
  }

  /** What a roster must satisfy when it need not be complete. */
  ghost predicate Consistent(norm: Normalize, seats: seq<Seat>) {
    WellFormed(norm, seats) && NoClash(norm, Entries(seats))
  }

  /** What it must satisfy besides when it must be complete. */
  ghost predicate Complete(norm: Normalize, register: seq<WardRef>, seats: seq<Seat>) {
    && (forall s :: s in seats ==> s.wards != [])
    && (forall w :: w in register ==> IsListed(norm, seats, w))
    && (register == [] || forall e :: e in Entries(seats) ==> InRegister(norm, register, e))
  }

  method ValidateGombeShaRoster(norm: Normalize, register: seq<WardRef>, seats: seq<Seat>, allowPartial: bool)
    returns (report: Report)
    ensures report.ok <==> Consistent(norm, seats) && (allowPartial || Complete(norm, register, seats))
  {
    var claimed := CollectClaims(norm, seats);
    var clashes := set key | key in claimed && |claimed[key]| > 1;
    var leftovers := FindLeftovers(norm, register, seats, claimed);
    var unknown := FindUnknown(norm, register, Entries(seats));
    var emptySeat := exists s | s in seats :: s.wards == [];
    NoClashExactly(norm, seats, claimed, clashes);
    NoLeftoversExactly(norm, register, seats, claimed, leftovers);
    var ok := WellFormed(norm, seats) && clashes == {}
      && (allowPartial || (!emptySeat && leftovers == [] && unknown == []));
    report := Report(ok, clashes, leftovers, unknown);
  }

  lemma NoClashExactly(norm: Normalize, seats: seq<Seat>, claimed: map<Key, seq<string>>, clashes: set<Key>)
    requires Collected(norm, Entries(seats), claimed) && clashes == set key | key in claimed && |claimed[key]| > 1
    ensures clashes == {} <==> NoClash(norm, Entries(seats))
  {
    var es := Entries(seats);
    if key :| key in clashes {
      ClaimsExactly(norm, es, key);
    }
    if i, j :| 0 <= i < j < |es| && KeyOf(norm, es[i]) == KeyOf(norm, es[j]) {
      ClaimsExactly(norm, es, KeyOf(norm, es[i]));
      assert KeyOf(norm, es[i]) in clashes;
    }
  }

  lemma {:induction false} EntriesExactly(seats: seq<Seat>, e: Entry)
    ensures e in Entries(seats) <==> e.seat in seats && e.ward in e.seat.wards
  {
    if seats == [] {
    } else {
      var rest, last := seats[..|seats| - 1], seats[|seats| - 1];
      EntriesExactly(rest, e);
      assert seats == rest + [last];
      var es := SeatEntries(last, |last.wards|);
      if e.seat == last && e.ward in last.wards {
        var j :| 0 <= j < |last.wards| && last.wards[j] == e.ward;
        assert es[j] == e;
      }
    }
  }

  /** A ward whose key is claimed is listed, since the claiming seat's own LGA is the ward's. */
  lemma ClaimedIsListed(norm: Normalize, seats: seq<Seat>, w: WardRef)
    requires IsClaimed(norm, Entries(seats), Key(norm(w.lga), norm(w.name)))
    ensures IsListed(norm, seats, w)
  {
    var es := Entries(seats);
    var i :| 0 <= i < |es| && KeyOf(norm, es[i]) == Key(norm(w.lga), norm(w.name));
    EntriesExactly(seats, es[i]);
    assert Lists(norm, es[i].seat, w);
  }

  lemma NoLeftoversExactly(
      norm: Normalize, register: seq<WardRef>, seats: seq<Seat>, claimed: map<Key, seq<string>>,
      leftovers: seq<WardRef>)
    requires Collected(norm, Entries(seats), claimed)
    requires forall w :: w in leftovers <==> w in register && IsLeftover(norm, seats, claimed, w)
    ensures leftovers == [] <==> forall w :: w in register ==> IsListed(norm, seats, w)
  {
    hide IsListed;
    forall w | w in register && Key(norm(w.lga), norm(w.name)) in claimed
      ensures IsListed(norm, seats, w)
    {
      ClaimsExactly(norm, Entries(seats), Key(norm(w.lga), norm(w.name)));
      ClaimedIsListed(norm, seats, w);
    }
    if leftovers != [] {
      assert leftovers[0] in leftovers;
    }
  }

  // ---------------------------------------------------------------- a valid roster is a partition

  /** No LGA name belongs to seats of two different LGAs. */
  ghost predicate Unambiguous(norm: Normalize, seats: seq<Seat>) {
    forall lga, s, t :: s in seats && t in seats && LgaMatchesSeat(norm, lga, s) && LgaMatchesSeat(norm, lga, t)
      ==> norm(s.lga) == norm(t.lga)
  }

  /** Two seats that list the same ward would clash. */
  lemma ListedOnce(norm: Normalize, seats: seq<Seat>, w: WardRef, s: Seat, t: Seat)
    requires NoClash(norm, Entries(seats)) && Unambiguous(norm, seats)
    requires s in seats && t in seats && Lists(norm, s, w) && Lists(norm, t, w)
    ensures s == t
  {
    var a :| a in s.wards && norm(w.name) == norm(a);
    var b :| b in t.wards && norm(w.name) == norm(b);
    EntriesExactly(seats, Entry(s, a));
    EntriesExactly(seats, Entry(t, b));
    var es := Entries(seats);
    var i :| 0 <= i < |es| && es[i] == Entry(s, a);
    var j :| 0 <= j < |es| && es[j] == Entry(t, b);
    assert KeyOf(norm, es[i]) == KeyOf(norm, es[j]);
  }

  /** One seat lists the ward, and no other does. */
  ghost predicate OneSeatLists(norm: Normalize, seats: seq<Seat>, w: WardRef) {
    exists s :: s in seats && Lists(norm, s, w) && forall t :: t in seats && Lists(norm, t, w) ==> t == s
  }

  /** The name on the seat's list is that of a registered ward, which the seat lists. */
  ghost predicate NamesAWard(norm: Normalize, register: seq<WardRef>, s: Seat, n: Name) {
    exists w :: w in register && Lists(norm, s, w) && norm(w.name) == norm(n)
  }

  lemma WardHasOneSeat(norm: Normalize, register: seq<WardRef>, seats: seq<Seat>, w: WardRef)
    requires NoClash(norm, Entries(seats)) && Unambiguous(norm, seats) && IsListed(norm, seats, w)
    ensures OneSeatLists(norm, seats, w)
  {
    var s :| s in seats && Lists(norm, s, w);
    hide Lists, NoClash, Unambiguous;
    forall t | t in seats && Lists(norm, t, w)
      ensures t == s
    {
      ListedOnce(norm, seats, w, s, t);
    }
  }

  lemma NameIsRegistered(norm: Normalize, register: seq<WardRef>, seats: seq<Seat>, s: Seat, n: Name)
    requires s in seats && n in s.wards && forall e :: e in Entries(seats) ==> InRegister(norm, register, e)
    ensures NamesAWard(norm, register, s, n)
  {
    EntriesExactly(seats, Entry(s, n));
    assert InRegister(norm, register, Entry(s, n));
    var w :| w in register && LgaMatchesSeat(norm, w.lga, s) && norm(w.name) == norm(n);
    assert Lists(norm, s, w);
  }

  /**
   * A roster that passes as complete is a partition of a non-empty register: every ward is listed by
   * one seat and no other, and every name on a list is a ward of the register that the seat lists.
   */
  lemma ValidRosterIsPartition(norm: Normalize, register: seq<WardRef>, seats: seq<Seat>)
    requires register != [] && Unambiguous(norm, seats)
    requires NoClash(norm, Entries(seats)) && Complete(norm, register, seats)
    ensures forall w :: w in register ==> OneSeatLists(norm, seats, w)
    ensures forall s, n :: s in seats && n in s.wards ==> NamesAWard(norm, register, s, n)
  {
    hide OneSeatLists, NamesAWard, NoClash, Unambiguous, InRegister, IsListed;
    forall w | w in register
      ensures OneSeatLists(norm, seats, w)
    {
      WardHasOneSeat(norm, register, seats, w);
    }
    forall s, n | s in seats && n in s.wards
      ensures NamesAWard(norm, register, s, n)
    {
      NameIsRegistered(norm, register, seats, s, n);
    }
  }

  // ---------------------------------------------------------------- assigning wards

  datatype WardRow = WardRow(id: string, name: Name)

  datatype LgaRow = LgaRow(name: Name, wards: seq<WardRow>)

  function LgaFor(norm: Normalize, lgas: seq<LgaRow>, seat: Seat): (r: Option<LgaRow>)
    ensures r.Some? ==> r.value in lgas && LgaMatchesSeat(norm, r.value.name, seat)
  {
    if lgas == [] then None
    else if LgaMatchesSeat(norm, lgas[0].name, seat) then Some(lgas[0])
    else LgaFor(norm, lgas[1..], seat)
  }

  function WardFor(norm: Normalize, wards: seq<WardRow>, name: Name): (r: Option<WardRow>)
    ensures r.Some? ==> r.value in wards && norm(r.value.name) == norm(name)
  {
    if wards == [] then None
    else if norm(wards[0].name) == norm(name) then Some(wards[0])
    else WardFor(norm, wards[1..], name)
  }

  ghost predicate IsFirstLga(norm: Normalize, lgas: seq<LgaRow>, seat: Seat, i: nat, lga: LgaRow) {
    && i < |lgas| && lgas[i] == lga && LgaMatchesSeat(norm, lga.name, seat)
    && forall j :: 0 <= j < i ==> !LgaMatchesSeat(norm, lgas[j].name, seat)
  }

  /** The LGA of a seat is the first that matches it. */
  lemma {:induction false} LgaForIsFirst(norm: Normalize, lgas: seq<LgaRow>, seat: Seat)
    ensures LgaFor(norm, lgas, seat).None? <==> forall l :: l in lgas ==> !LgaMatchesSeat(norm, l.name, seat)
    ensures LgaFor(norm, lgas, seat).Some? ==>
      exists i: nat :: IsFirstLga(norm, lgas, seat, i, LgaFor(norm, lgas, seat).value)
  {
    if lgas == [] {
    } else if LgaMatchesSeat(norm, lgas[0].name, seat) {
      assert IsFirstLga(norm, lgas, seat, 0, lgas[0]);
    } else {
      LgaForIsFirst(norm, lgas[1..], seat);
      if LgaFor(norm, lgas, seat).Some? {
        var lga := LgaFor(norm, lgas[1..], seat).value;
        var i: nat :| IsFirstLga(norm, lgas[1..], seat, i, lga);
        assert forall j :: 0 < j < i + 1 ==> lgas[j] == lgas[1..][j - 1];
        assert IsFirstLga(norm, lgas, seat, i + 1, lga);
      }
    }
  }

  ghost predicate IsFirstWard(norm: Normalize, wards: seq<WardRow>, name: Name, i: nat, ward: WardRow) {
    && i < |wards| && wards[i] == ward && norm(ward.name) == norm(name)
    && forall j :: 0 <= j < i ==> norm(wards[j].name) != norm(name)
  }

  /** And its ward the first of that name. */
  lemma {:induction false} WardForIsFirst(norm: Normalize, wards: seq<WardRow>, name: Name)
    ensures WardFor(norm, wards, name).None? <==> forall w :: w in wards ==> norm(w.name) != norm(name)
    ensures WardFor(norm, wards, name).Some? ==>
      exists i: nat :: IsFirstWard(norm, wards, name, i, WardFor(norm, wards, name).value)
  {
    if wards == [] {
    } else if norm(wards[0].name) == norm(name) {
      assert IsFirstWard(norm, wards, name, 0, wards[0]);
    } else {
      WardForIsFirst(norm, wards[1..], name);
      if WardFor(norm, wards, name).Some? {
        var ward := WardFor(norm, wards[1..], name).value;
        var i: nat :| IsFirstWard(norm, wards[1..], name, i, ward);
        assert forall j :: 0 < j < i + 1 ==> wards[j] == wards[1..][j - 1];
        assert IsFirstWard(norm, wards, name, i + 1, ward);
      }
    }
  }

  /** The ward row a name on a seat's list is looked up as. */
  function Target(norm: Normalize, lgas: seq<LgaRow>, seat: Seat, name: Name): Option<WardRow> {
    var lga := LgaFor(norm, lgas, seat);
    if lga.None? then None else WardFor(norm, lga.value.wards, name)
  }

  /** Some of the names on the seat's list is looked up as this ward. */
  ghost predicate TakesAmong(norm: Normalize, lgas: seq<LgaRow>, seat: Seat, names: seq<Name>, id: string) {
    exists name ::
      name in names && Target(norm, lgas, seat, name).Some? && Target(norm, lgas, seat, name).value.id == id
  }

  ghost predicate Takes(norm: Normalize, lgas: seq<LgaRow>, seat: Seat, id: string) {
    TakesAmong(norm, lgas, seat, seat.wards, id)
  }

  ghost predicate LastTaker(norm: Normalize, lgas: seq<LgaRow>, seats: seq<Seat>, id: string, i: int) {
    && 0 <= i < |seats| && Takes(norm, lgas, seats[i], id)
    && forall j :: i < j < |seats| ==> !Takes(norm, lgas, seats[j], id)
  }

  /** The last seat that takes the ward has this code. */
  ghost predicate GoesTo(norm: Normalize, lgas: seq<LgaRow>, seats: seq<Seat>, id: string, code: string) {
    exists i :: LastTaker(norm, lgas, seats, id, i) && seats[i].code == code
  }

  ghost predicate Untaken(norm: Normalize, lgas: seq<LgaRow>, seats: seq<Seat>, id: string) {
    forall s :: s in seats ==> !Takes(norm, lgas, s, id)
  }

  /** Exactly the wards some seat takes are assigned, each to the last seat that takes it. */
  ghost predicate AssignedBy(norm: Normalize, lgas: seq<LgaRow>, seats: seq<Seat>, seatOf: map<string, string>) {
    forall id :: if id in seatOf then GoesTo(norm, lgas, seats, id, seatOf[id]) else Untaken(norm, lgas, seats, id)
  }

  lemma OneMoreName(norm: Normalize, lgas: seq<LgaRow>, seat: Seat, j: nat, id: string)
    requires j < |seat.wards|
    ensures
      var ward := Target(norm, lgas, seat, seat.wards[j]);
      TakesAmong(norm, lgas, seat, seat.wards[..j + 1], id)
      <==> TakesAmong(norm, lgas, seat, seat.wards[..j], id) || (ward.Some? && ward.value.id == id)
  {
    assert seat.wards[..j + 1] == seat.wards[..j] + [seat.wards[j]];
  }

  /** The wards of one seat. */
  method AssignSeat(norm: Normalize, lgas: seq<LgaRow>, seat: Seat, before: map<string, string>)
    returns (seatOf: map<string, string>)
    ensures forall id :: id in seatOf <==> id in before || Takes(norm, lgas, seat, id)
    ensures forall id :: id in seatOf ==> seatOf[id] == if Takes(norm, lgas, seat, id) then seat.code else before[id]
  {
    seatOf := before;
    var lga := LgaFor(norm, lgas, seat);
    if lga.None? || |seat.wards| == 0 {
      return;
    }
    assert seat.wards[..0] == [] && seat.wards[..|seat.wards|] == seat.wards;
    for j := 0 to |seat.wards|
      invariant forall id :: id in seatOf <==> id in before || TakesAmong(norm, lgas, seat, seat.wards[..j], id)
      invariant forall id :: id in seatOf ==>
        seatOf[id] == if TakesAmong(norm, lgas, seat, seat.wards[..j], id) then seat.code else before[id]
    {
      hide TakesAmong, WardFor;
      forall id
      {
        OneMoreName(norm, lgas, seat, j, id);
      }
      var ward := WardFor(norm, lga.value.wards, seat.wards[j]);
      if ward.Some? {
        seatOf := seatOf[ward.value.id := seat.code];
      }
    }
  }

  method AssignWards(norm: Normalize, lgas: seq<LgaRow>, seats: seq<Seat>) returns (seatOf: map<string, string>)
    ensures AssignedBy(norm, lgas, seats, seatOf)
  {
    seatOf := map[];
    for i := 0 to |seats|
      invariant AssignedBy(norm, lgas, seats[..i], seatOf)
    {
      ghost var before := seatOf;
      seatOf := AssignSeat(norm, lgas, seats[i], seatOf);
      OneMoreSeat(norm, lgas, seats, i, before, seatOf);
    }
    assert seats[..|seats|] == seats;
  }

  lemma OneMoreSeat(norm: Normalize, lgas: seq<LgaRow>, seats: seq<Seat>, i: nat, before: map<string, string>,
      after: map<string, string>)
    requires i < |seats| && AssignedBy(norm, lgas, seats[..i], before)
    requires forall id :: id in after <==> id in before || Takes(norm, lgas, seats[i], id)
    requires forall id :: id in after ==>
      after[id] == if Takes(norm, lgas, seats[i], id) then seats[i].code else before[id]
    ensures AssignedBy(norm, lgas, seats[..i + 1], after)
  {
    hide Takes;
    assert seats[..i + 1] == seats[..i] + [seats[i]];
    forall id | id in after
      ensures GoesTo(norm, lgas, seats[..i + 1], id, after[id])
    {
      if Takes(norm, lgas, seats[i], id) {
        assert LastTaker(norm, lgas, seats[..i + 1], id, i);
      } else {
        var k :| LastTaker(norm, lgas, seats[..i], id, k) && seats[..i][k].code == before[id];
        assert LastTaker(norm, lgas, seats[..i + 1], id, k);
      }
    }
  }

  ghost predicate OwnIds(lgas: seq<LgaRow>) {
    forall l, m, v, w :: l in lgas && m in lgas && v in l.wards && w in m.wards && v.id == w.id ==> l == m && v == w
  }

  /** A seat takes a ward row only if it lists the ward. */
  lemma TakenIsListed(norm: Normalize, lgas: seq<LgaRow>, s: Seat, id: string) returns (lga: LgaRow, row: WardRow)
    requires Takes(norm, lgas, s, id)
    ensures lga in lgas && row in lga.wards && row.id == id && Lists(norm, s, WardRef(lga.name, row.name))
  {
    var name :| name in s.wards && Target(norm, lgas, s, name).Some? && Target(norm, lgas, s, name).value.id == id;
    lga, row := LgaFor(norm, lgas, s).value, Target(norm, lgas, s, name).value;
  }

  /** No ward is taken by two seats of a valid roster. */
  lemma TakenOnce(norm: Normalize, lgas: seq<LgaRow>, seats: seq<Seat>, s: Seat, t: Seat, id: string)
    requires NoClash(norm, Entries(seats)) && Unambiguous(norm, seats) && OwnIds(lgas)
    requires s in seats && t in seats && Takes(norm, lgas, s, id) && Takes(norm, lgas, t, id)
    ensures s == t
  {
    hide NoClash, Unambiguous, Takes, Lists;
    var l, v := TakenIsListed(norm, lgas, s, id);
    var m, w := TakenIsListed(norm, lgas, t, id);
    ListedOnce(norm, seats, WardRef(l.name, v.name), s, t);
  }

  lemma SameSeat(norm: Normalize, lgas: seq<LgaRow>, seats: seq<Seat>, other: seq<Seat>, id: string, code: string,
      otherCode: string)
    requires NoClash(norm, Entries(seats)) && Unambiguous(norm, seats) && OwnIds(lgas)
    requires forall s :: s in other ==> s in seats
    requires GoesTo(norm, lgas, seats, id, code) && GoesTo(norm, lgas, other, id, otherCode)
    ensures code == otherCode
  {
    hide NoClash, Unambiguous, OwnIds, Takes;
    var i :| LastTaker(norm, lgas, seats, id, i) && seats[i].code == code;
    var j :| LastTaker(norm, lgas, other, id, j) && other[j].code == otherCode;
    assert seats[i] in seats && other[j] in other;
    TakenOnce(norm, lgas, seats, seats[i], other[j], id);
  }

  lemma TakenOrNot(norm: Normalize, lgas: seq<LgaRow>, seats: seq<Seat>, other: seq<Seat>, id: string, code: string)
    requires forall s :: s in seats ==> s in other
    requires GoesTo(norm, lgas, seats, id, code)
    ensures !Untaken(norm, lgas, other, id)
  {
    hide Takes;
    var i :| LastTaker(norm, lgas, seats, id, i) && seats[i].code == code;
    assert seats[i] in seats && seats[i] in other;
  }

  /** With a roster free of clashes, the assignment does not depend on the order of the seats. */
  lemma SeatOrderDoesNotMatter(norm: Normalize, lgas: seq<LgaRow>, seats: seq<Seat>, other: seq<Seat>,
      a: map<string, string>, b: map<string, string>)
    requires NoClash(norm, Entries(seats)) && Unambiguous(norm, seats) && OwnIds(lgas)
    requires forall s :: s in seats <==> s in other
    requires AssignedBy(norm, lgas, seats, a) && AssignedBy(norm, lgas, other, b)
    ensures a == b
  {
    hide NoClash, Unambiguous, OwnIds, GoesTo, Untaken;
    forall id
      ensures (id in a <==> id in b) && (id in a ==> a[id] == b[id])
    {
      if id in a && id in b {
        SameSeat(norm, lgas, seats, other, id, a[id], b[id]);
      } else if id in a {
        TakenOrNot(norm, lgas, seats, other, id, a[id]);
      } else if id in b {
        TakenOrNot(norm, lgas, other, seats, id, b[id]);
      }
    }
  }
}
