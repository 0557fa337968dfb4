/**
 * Views over a list of appointments: the appointments of one patient or one
 * doctor (the registry's stream filters), slot conflicts, and the lemmas
 * that keep a patient's or doctor's own list equal to such a view while the
 * master list grows and shrinks.
 */
module Schedules {
  import opened Lists
  import opened Entities

  /** Whose appointments a view selects. */
  datatype Party = OfPatient(patient: Patient?) | OfDoctor(doctor: Doctor?)

  predicate Involves(a: Appointment, who: Party)
    reads a
  {
    match who
    case OfPatient(p) => a.patient == p
    case OfDoctor(d) => a.doctor == d
  }

  /** The order-preserving filter of `s` down to the appointments of `who`. */
  function AppointmentsOf(s: seq<Appointment>, who: Party): (r: seq<Appointment>)
    reads s
    ensures IsSubsequence(r, s)
    ensures forall a :: a in r ==> a in s && Involves(a, who)
    ensures forall a :: a in s && Involves(a, who) ==> a in r
  {
    if s == [] then []
    else if Involves(s[0], who) then [s[0]] + AppointmentsOf(s[1..], who)
    else AppointmentsOf(s[1..], who)
  }

  /** Filtering distributes over concatenation, so relative order is kept. */
  lemma {:induction false} AppointmentsOfConcat(s: seq<Appointment>, t: seq<Appointment>, who: Party)
    ensures AppointmentsOf(s + t, who) == AppointmentsOf(s, who) + AppointmentsOf(t, who)
  {
    if s != [] {
      assert (s + t)[1..] == s[1..] + t;
      AppointmentsOfConcat(s[1..], t, who);
    } else {
      assert s + t == t;
    }
  }

  /** Appending to the master list appends to exactly the views that involve the new appointment. */
  lemma AppointmentsOfAppend(s: seq<Appointment>, a: Appointment, who: Party)
    ensures AppointmentsOf(s + [a], who) == AppointmentsOf(s, who) + (if Involves(a, who) then [a] else [])
  {
    AppointmentsOfConcat(s, [a], who);
    assert [a][1..] == [];
  }

  /**
   * Removing the first occurrence of `x` from the master list removes the
   * first occurrence of `x` from the views that involve it, and leaves every
   * other view as it was.
   */
  lemma {:induction false} AppointmentsOfRemoveFirst(s: seq<Appointment>, x: Appointment, who: Party)
    ensures AppointmentsOf(RemoveFirst(s, x), who)
         == if Involves(x, who) then RemoveFirst(AppointmentsOf(s, who), x) else AppointmentsOf(s, who)
  {
    if s != [] && s[0] != x {
      AppointmentsOfRemoveFirst(s[1..], x, who);
      assert RemoveFirst(s, x) == [s[0]] + RemoveFirst(s[1..], x);
      assert ([s[0]] + RemoveFirst(s[1..], x))[1..] == RemoveFirst(s[1..], x);
    }
  }

  /** The view of a duplicate-free list is duplicate-free. */
  lemma {:induction false} AppointmentsOfDistinct(s: seq<Appointment>, who: Party)
    requires Distinct(s)
    ensures Distinct(AppointmentsOf(s, who))
  {
    if s != [] {
      assert Distinct(s[1..]) by {
        forall i, j | 0 <= i < j < |s[1..]| ensures s[1..][i] != s[1..][j] {
          assert s[1..][i] == s[i + 1] && s[1..][j] == s[j + 1];
        }
      }
      AppointmentsOfDistinct(s[1..], who);
      var rest := AppointmentsOf(s[1..], who);
      if Involves(s[0], who) {
        assert s[0] !in s[1..] by {
          forall k | 0 <= k < |s[1..]| ensures s[1..][k] != s[0] {
            assert s[1..][k] == s[k + 1];
          }
        }
        var r := [s[0]] + rest;
        forall i, j | 0 <= i < j < |r| ensures r[i] != r[j] {
          if i == 0 {
            assert r[j] == rest[j - 1] && r[j] in s[1..];
          } else {
            assert r[i] == rest[i - 1] && r[j] == rest[j - 1];
          }
        }
      }
    }
  }

  /** Same doctor, identical date string and identical time string. */
  predicate SameSlot(a: Appointment, b: Appointment)
    reads a, b
  {
    a.doctor == b.doctor && a.date == b.date && a.time == b.time
  }

  /** Some appointment of `s` already holds this doctor at this date and time. */
  predicate SlotTaken(s: seq<Appointment>, doctor: Doctor?, date: string, time: string)
    reads s
  {
    exists a :: a in s && a.doctor == doctor && a.date == date && a.time == time
  }

  /** No two distinct appointments of `s` share a slot. */
  predicate NoDoubleBooking(s: seq<Appointment>)
    reads s
  {
    forall a, b :: a in s && b in s && a != b ==> !SameSlot(a, b)
  }

  // ---------- Snapshots: the linking fields of a list of appointments, as values ----------

  /** What an appointment links, copied out of the object. */
  datatype Booking = Booking(apt: Appointment, patient: Patient?, doctor: Doctor?, date: string, time: string)

  predicate Records(a: Appointment, b: Booking)
    reads a
  {
    b.apt == a && b.patient == a.patient && b.doctor == a.doctor && b.date == a.date && b.time == a.time
  }

  /** `bs` is a faithful copy of the appointments `s`, position by position. */
  predicate Mirrors(s: seq<Appointment>, bs: seq<Booking>)
    reads s
  {
    |s| == |bs| && forall i :: 0 <= i < |s| ==> Records(s[i], bs[i])
  }

  /** Dropping the same position from a list and its copy keeps the copy faithful. */
  lemma MirrorsRemoveAt(s: seq<Appointment>, bs: seq<Booking>, k: nat)
    requires Mirrors(s, bs) && k < |s|
    ensures Mirrors(s[..k] + s[k + 1..], bs[..k] + bs[k + 1..])
  {
  }

  predicate BookingInvolves(b: Booking, who: Party) {
    match who
    case OfPatient(p) => b.patient == p
    case OfDoctor(d) => b.doctor == d
  }

  /** AppointmentsOf, computed on a snapshot. */
  function Select(bs: seq<Booking>, who: Party): (r: seq<Appointment>)
    ensures forall x :: x in r ==> exists i :: 0 <= i < |bs| && bs[i].apt == x
  {
    if bs == [] then []
    else if BookingInvolves(bs[0], who) then [bs[0].apt] + Select(bs[1..], who)
    else Select(bs[1..], who)
  }

  /** A party no booking involves has an empty view. */
  lemma {:induction false} SelectNone(bs: seq<Booking>, who: Party)
    requires forall i :: 0 <= i < |bs| ==> !BookingInvolves(bs[i], who)
    ensures Select(bs, who) == []
  {
    if bs != [] {
      assert !BookingInvolves(bs[0], who);
      SelectNone(bs[1..], who);
    }
  }

  /** Appending a booking extends exactly the views of the parties it involves. */
  lemma SelectAppend(bs: seq<Booking>, b: Booking, who: Party)
    ensures Select(bs + [b], who) == Select(bs, who) + if BookingInvolves(b, who) then [b.apt] else []
  {
    SelectConcat(bs, [b], who);
    assert [b][1..] == [];
  }

  lemma {:induction false} SelectConcat(bs: seq<Booking>, cs: seq<Booking>, who: Party)
    ensures Select(bs + cs, who) == Select(bs, who) + Select(cs, who)
  {
    if bs != [] {
      assert (bs + cs)[1..] == bs[1..] + cs;
      SelectConcat(bs[1..], cs, who);
    } else {
      assert bs + cs == cs;
    }
  }

  /**
   * Dropping position k of a snapshot removes its appointment from the
   * filtered view of a party it involves and leaves every other view as it was.
   */
  lemma SelectRemoveAt(bs: seq<Booking>, k: nat, who: Party)
    requires k < |bs|
    requires forall i :: 0 <= i < k ==> bs[i].apt != bs[k].apt
    ensures Select(bs[..k] + bs[k + 1..], who) ==
      if BookingInvolves(bs[k], who) then RemoveFirst(Select(bs, who), bs[k].apt) else Select(bs, who)
  {
    var pre, post := bs[..k], bs[k + 1..];
    var x := bs[k].apt;
    var mine := if BookingInvolves(bs[k], who) then [x] else [];
    SelectSplitAt(bs, k, who);
    assert Select(bs, who) == Select(pre, who) + mine + Select(post, who);
    SelectConcat(pre, post, who);
    if BookingInvolves(bs[k], who) {
      RemoveFirstSplit(Select(pre, who), x, Select(post, who));
    } else {
      assert Select(pre, who) + mine == Select(pre, who);
    }
  }

  lemma SelectSplitAt(bs: seq<Booking>, k: nat, who: Party)
    requires k < |bs|
    ensures Select(bs, who) ==
      Select(bs[..k], who) + (if BookingInvolves(bs[k], who) then [bs[k].apt] else []) + Select(bs[k + 1..], who)
  {
    assert bs == bs[..k] + [bs[k]] + bs[k + 1..];
    SelectConcat(bs[..k] + [bs[k]], bs[k + 1..], who);
    SelectConcat(bs[..k], [bs[k]], who);
    assert [bs[k]][1..] == [];
  }

  /** On a faithful copy the snapshot filter and the object filter agree. */
  lemma {:induction false} MirrorsSelect(s: seq<Appointment>, bs: seq<Booking>, who: Party)
    requires Mirrors(s, bs)
    ensures AppointmentsOf(s, who) == Select(bs, who)
  {
    if s != [] {
      assert Records(s[0], bs[0]);
      assert Mirrors(s[1..], bs[1..]) by {
        forall i | 0 <= i < |s[1..]| ensures Records(s[1..][i], bs[1..][i]) {
          assert Records(s[i + 1], bs[i + 1]);
        }
      }
      MirrorsSelect(s[1..], bs[1..], who);
    }
  }

  /** Same doctor, date and time in two snapshots. */
  predicate Clash(b: Booking, c: Booking) {
    b.doctor == c.doctor && b.date == c.date && b.time == c.time
  }

  predicate NoClash(bs: seq<Booking>) {
    forall i, j :: 0 <= i < |bs| && 0 <= j < |bs| && i != j ==> !Clash(bs[i], bs[j])
  }

  /** On a faithful copy of a duplicate-free list, no clash means no double booking. */
  lemma MirrorsNoDoubleBooking(s: seq<Appointment>, bs: seq<Booking>)
    requires Mirrors(s, bs) && Distinct(s) && NoClash(bs)
    ensures NoDoubleBooking(s)
  {
  }

  /** A slot no appointment of `s` holds is held by no booking of a faithful copy. */
  lemma FreeSlotNoClash(s: seq<Appointment>, bs: seq<Booking>, doctor: Doctor?, date: string, time: string)
    requires Mirrors(s, bs) && !SlotTaken(s, doctor, date, time)
    ensures forall i :: 0 <= i < |bs| ==> !(bs[i].doctor == doctor && bs[i].date == date && bs[i].time == time)
  {
  }

  /** Appending a booking that clashes with none keeps the snapshot clash-free. */
  lemma NoClashAppend(bs: seq<Booking>, b: Booking)
    requires NoClash(bs)
    requires forall i :: 0 <= i < |bs| ==> !Clash(bs[i], b)
    ensures NoClash(bs + [b])
  {
    var cs := bs + [b];
    forall i, j | 0 <= i < |cs| && 0 <= j < |cs| && i != j
      ensures !Clash(cs[i], cs[j])
    {
      if i < |bs| && j < |bs| {
        assert cs[i] == bs[i] && cs[j] == bs[j];
      } else if i < |bs| {
        assert cs[i] == bs[i];
      } else {
        assert cs[j] == bs[j];
      }
    }
  }

  /** Dropping one position keeps the snapshot clash-free. */
  lemma NoClashRemoveAt(bs: seq<Booking>, k: nat)
    requires NoClash(bs) && k < |bs|
    ensures NoClash(bs[..k] + bs[k + 1..])
  {
    var cs := bs[..k] + bs[k + 1..];
    forall i, j | 0 <= i < |cs| && 0 <= j < |cs| && i != j
      ensures !Clash(cs[i], cs[j])
    {
      var i' := if i < k then i else i + 1;
      var j' := if j < k then j else j + 1;
      assert cs[i] == bs[i'] && cs[j] == bs[j'];
    }
  }
}
