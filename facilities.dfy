/** Company facilities (shared company_facilities/FacilityService.java): pick-up
    points, warehouses and offices, of which those not yet closed are active.
    Dates are LocalDate values in whole days; `today` is a parameter. */
module Facilities {
  import opened Wrappers
  import opened Seqs

  datatype FacilityType = PVZ | WAREHOUSE | OFFICE

  datatype Facility = Facility(
    id: nat,
    facilityType: FacilityType,
    name: string,
    address: Option<string>,
    latitude: Option<real>,
    longitude: Option<real>,
    createdAt: Option<int>,
    closedDate: Option<int>)

  /** `isActive`: never closed, or closing strictly after today. */
  predicate IsActive(f: Facility, today: int) {
    f.closedDate.None? || f.closedDate.value > today
  }

  function OfType(t: FacilityType): Facility -> bool {
    (f: Facility) => f.facilityType == t
  }

  function ActiveOn(today: int): Facility -> bool {
    (f: Facility) => IsActive(f, today)
  }

  function FacilityWithId(id: nat): Facility -> bool {
    (f: Facility) => f.id == id
  }

  /** `getById`. */
  function GetById(fs: seq<Facility>, id: nat): (r: Option<Facility>)
    ensures r.Some? ==> r.value in fs && r.value.id == id
    ensures r.None? <==> forall i :: 0 <= i < |fs| ==> fs[i].id != id
  {
    FindFirst(fs, FacilityWithId(id))
  }

  /** `getByType`: the facilities of one type, closed ones included. */
  function GetByType(fs: seq<Facility>, t: FacilityType): (r: seq<Facility>)
    ensures forall i :: 0 <= i < |r| ==> r[i].facilityType == t
    ensures forall f :: f in fs && f.facilityType == t ==> f in r
    ensures forall f :: multiset(r)[f] == (if f.facilityType == t then multiset(fs)[f] else 0)
  {
    Filter(fs, OfType(t))
  }

  /** `getActiveByType`: the facilities of one type that are active today. */
  function GetActiveByType(fs: seq<Facility>, t: FacilityType, today: int): (r: seq<Facility>)
    ensures forall i :: 0 <= i < |r| ==> r[i].facilityType == t && IsActive(r[i], today)
    ensures forall f :: f in fs && f.facilityType == t && IsActive(f, today) ==> f in r
    ensures forall f :: multiset(r)[f] == (if f.facilityType == t && IsActive(f, today) then multiset(fs)[f] else 0)
  {
    var byType := GetByType(fs, t);
    Filter(byType, ActiveOn(today))
  }

  /** A facility closing today is already inactive; one closing tomorrow is
      still active. */
  lemma ClosingDayIsInactive(f: Facility, today: int)
    ensures f.closedDate == Some(today) ==> !IsActive(f, today)
    ensures f.closedDate == Some(today + 1) ==> IsActive(f, today)
    ensures f.closedDate == Some(today - 1) ==> !IsActive(f, today)
  {
  }

  /** Activity only ends: active on a day means active on every earlier day. */
  lemma ActiveIsAntitone(f: Facility, earlier: int, today: int)
    requires earlier <= today && IsActive(f, today)
    ensures IsActive(f, earlier)
  {
  }

  /** The active facilities of a type are a sublist, order kept, of all the
      facilities of that type, so there are never more of them. */
  lemma {:induction false} ActiveByTypeIsSublist(fs: seq<Facility>, t: FacilityType, today: int)
    ensures Subsequence(GetActiveByType(fs, t, today), GetByType(fs, t))
    ensures |GetActiveByType(fs, t, today)| <= |GetByType(fs, t)|
    ensures Subsequence(GetByType(fs, t), fs)
  {
    FilterIsSubsequence(GetByType(fs, t), ActiveOn(today));
    FilterIsSubsequence(fs, OfType(t));
  }

  /** Facilities active today are active on every earlier day, so the list
      of a type never grows as days pass. */
  lemma {:induction false} ActiveListShrinks(fs: seq<Facility>, t: FacilityType, earlier: int, today: int)
    requires earlier <= today
    ensures forall f :: f in GetActiveByType(fs, t, today) ==> f in GetActiveByType(fs, t, earlier)
  {
    forall f | f in GetActiveByType(fs, t, today)
      ensures f in GetActiveByType(fs, t, earlier)
    {
      ActiveIsAntitone(f, earlier, today);
      assert f in GetByType(fs, t);
    }
  }
}
