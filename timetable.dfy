/** The daily timetable: slots with an "HH:MM" start time and an activity,
    kept sorted by time. Times are compared as strings, character by
    character, which for "HH:MM" is the order of the clock. */
module Timetable {
  import opened Common

  datatype Slot = Slot(id: string, time: string, activity: string)

  function SlotId(s: Slot): string { s.id }

  /** Lexicographic order on strings, which is the order `<=` and
      `localeCompare` give on "HH:MM" times: a prefix comes first, otherwise
      the first differing character decides. */
  predicate TimeLe(a: string, b: string)
  {
    if a == [] then true
    else if b == [] then false
    else if a[0] != b[0] then a[0] < b[0]
    else TimeLe(a[1..], b[1..])
  }

  /** A time is no later than any text it is a prefix of. */
  lemma {:induction false} TimeLePrefix(a: string, b: string)
    requires |a| <= |b| && a == b[..|a|]
    ensures TimeLe(a, b)
  {
    if a != [] {
      assert a[1..] == b[1..][..|a| - 1];
      TimeLePrefix(a[1..], b[1..]);
    }
  }

  /** Past a common beginning, the first differing character decides. */
  lemma {:induction false} TimeLeFirstDifference(a: string, b: string, i: nat)
    requires i < |a| && i < |b| && a[..i] == b[..i] && a[i] != b[i]
    ensures TimeLe(a, b) <==> a[i] < b[i]
  {
    if i > 0 {
      assert a[0] == a[..i][0] && b[0] == b[..i][0];
      assert a[1..][..i - 1] == a[..i][1..] && b[1..][..i - 1] == b[..i][1..];
      TimeLeFirstDifference(a[1..], b[1..], i - 1);
    }
  }

  lemma {:induction false} TimeLeTotal(a: string, b: string)
    ensures TimeLe(a, b) || TimeLe(b, a)
  {
    if a != [] && b != [] && a[0] == b[0] {
      TimeLeTotal(a[1..], b[1..]);
    }
  }

  /** Two times that are each no later than the other are the same string. */
  lemma {:induction false} TimeLeAntisymmetric(a: string, b: string)
    requires TimeLe(a, b) && TimeLe(b, a)
    ensures a == b
  {
    if a != [] && b != [] {
      TimeLeAntisymmetric(a[1..], b[1..]);
      assert a == [a[0]] + a[1..] && b == [b[0]] + b[1..];
    }
  }

  lemma {:induction false} TimeLeTransitive(a: string, b: string, c: string)
    requires TimeLe(a, b) && TimeLe(b, c)
    ensures TimeLe(a, c)
  {
    if a != [] && b != [] && c != [] && a[0] == b[0] && b[0] == c[0] {
      TimeLeTransitive(a[1..], b[1..], c[1..]);
    }
  }

  predicate Sorted(s: seq<Slot>)
  {
    forall i, j :: 0 <= i < j < |s| ==> TimeLe(s[i].time, s[j].time)
  }

  /** Every slot of `s` starts no earlier than `t`. */
  predicate NoneBefore(t: string, s: seq<Slot>)
  {
    forall j :: 0 <= j < |s| ==> TimeLe(t, s[j].time)
  }

  lemma PrependSorted(x: Slot, s: seq<Slot>)
    requires Sorted(s) && NoneBefore(x.time, s)
    ensures Sorted([x] + s)
  {
    var r := [x] + s;
    forall i, j | 0 <= i < j < |r| ensures TimeLe(r[i].time, r[j].time) {
      if i > 0 { assert r[i] == s[i - 1] && r[j] == s[j - 1]; }
    }
  }

  /** A lower bound of the first slot of a sorted list bounds all of it. */
  lemma FirstBoundsAll(t: string, s: seq<Slot>)
    requires Sorted(s) && s != [] && TimeLe(t, s[0].time)
    ensures NoneBefore(t, s)
  {
    forall j | 0 <= j < |s| ensures TimeLe(t, s[j].time) {
      if j > 0 { TimeLeTransitive(t, s[0].time, s[j].time); }
    }
  }

  /** A bound that holds of every slot of `a` and of `x` holds of every slot
      of any rearrangement of `a` with `x` added. */
  lemma BoundCarries(t: string, a: seq<Slot>, x: Slot, b: seq<Slot>)
    requires NoneBefore(t, a) && TimeLe(t, x.time)
    requires multiset(b) == multiset(a) + multiset{x}
    ensures NoneBefore(t, b)
  {
    forall j | 0 <= j < |b| ensures TimeLe(t, b[j].time) {
      assert b[j] in multiset(b);
      if b[j] != x {
        assert b[j] in multiset(a);
        var k :| 0 <= k < |a| && a[k] == b[j];
      }
    }
  }

  /** Places `x` after every slot that does not start later than it, so that
      slots with the same time keep the order in which they were given. */
  function Insert(s: seq<Slot>, x: Slot): (r: seq<Slot>)
    requires Sorted(s)
    ensures Sorted(r)
    ensures multiset(r) == multiset(s) + multiset{x}
  {
    if s == [] then [x]
    else if !TimeLe(s[0].time, x.time) then
      TimeLeTotal(x.time, s[0].time);
      FirstBoundsAll(x.time, s);
      PrependSorted(x, s);
      [x] + s
    else
      var t := Insert(s[1..], x);
      assert s == [s[0]] + s[1..];
      assert NoneBefore(s[0].time, s[1..]);
      BoundCarries(s[0].time, s[1..], x, t);
      PrependSorted(s[0], t);
      [s[0]] + t
  }

  /** Where `Insert` puts the new slot: after every slot that does not start
      later than it, before every slot that does, with the old slots in their
      old order around it. So among slots with equal times the inserted one
      comes last. */
  lemma {:induction false} InsertPlacement(s: seq<Slot>, x: Slot) returns (k: nat)
    requires Sorted(s)
    ensures k <= |s| && Insert(s, x) == s[..k] + [x] + s[k..]
    ensures forall j :: 0 <= j < k ==> TimeLe(s[j].time, x.time)
    ensures forall j :: k <= j < |s| ==> !TimeLe(s[j].time, x.time)
  {
    if s == [] {
      k := 0;
    } else if !TimeLe(s[0].time, x.time) {
      AllLater(s, x);
      k := 0;
      assert s[..0] == [] && s[0..] == s;
    } else {
      SortedTail(s);
      var m := InsertPlacement(s[1..], x);
      assert Insert(s, x) == [s[0]] + Insert(s[1..], x);
      k := PlacementShift(s, x, m);
    }
  }

  /** A slot earlier than the first slot of a sorted list is earlier than all. */
  lemma AllLater(s: seq<Slot>, x: Slot)
    requires Sorted(s) && s != [] && !TimeLe(s[0].time, x.time)
    ensures forall j :: 0 <= j < |s| ==> !TimeLe(s[j].time, x.time)
  {
    forall j | 0 <= j < |s| ensures !TimeLe(s[j].time, x.time) {
      if TimeLe(s[j].time, x.time) {
        TimeLeTransitive(s[0].time, s[j].time, x.time);
      }
    }
  }

  /** The placement in the tail, seen from the whole list. */
  lemma PlacementShift(s: seq<Slot>, x: Slot, m: nat) returns (k: nat)
    requires s != [] && TimeLe(s[0].time, x.time) && m <= |s| - 1
    requires forall j :: 0 <= j < m ==> TimeLe(s[1..][j].time, x.time)
    requires forall j :: m <= j < |s| - 1 ==> !TimeLe(s[1..][j].time, x.time)
    ensures k == m + 1 && k <= |s|
    ensures [s[0]] + (s[1..][..m] + [x] + s[1..][m..]) == s[..k] + [x] + s[k..]
    ensures forall j :: 0 <= j < k ==> TimeLe(s[j].time, x.time)
    ensures forall j :: k <= j < |s| ==> !TimeLe(s[j].time, x.time)
  {
    k := m + 1;
    var t := s[1..];
    assert s[..k] == [s[0]] + t[..m];
    assert s[k..] == t[m..];
    forall j | 1 <= j < |s| ensures s[j] == t[j - 1] {
    }
  }

  /** Dropping the first slot of a sorted list leaves it sorted. */
  lemma SortedTail(s: seq<Slot>)
    requires Sorted(s) && s != []
    ensures Sorted(s[1..])
  {
    var t := s[1..];
    forall i, j | 0 <= i < j < |t| ensures TimeLe(t[i].time, t[j].time) {
      assert t[i] == s[i + 1] && t[j] == s[j + 1];
    }
  }

  /** Dropping the last slot of a sorted list leaves it sorted. */
  lemma SortedInit(s: seq<Slot>)
    requires Sorted(s) && s != []
    ensures Sorted(s[..|s| - 1])
  {
    var t := s[..|s| - 1];
    forall i, j | 0 <= i < j < |t| ensures TimeLe(t[i].time, t[j].time) {
      assert t[i] == s[i] && t[j] == s[j];
    }
  }

  /** `Array.prototype.sort` with `a.time.localeCompare(b.time)`, written as an
      insertion sort that takes the slots from first to last: each slot goes
      after the slots already placed that do not start later than it
      (`InsertPlacement`), so slots with equal times keep the order given. */
  function SortByTime(s: seq<Slot>): (r: seq<Slot>)
    ensures Sorted(r)
    ensures multiset(r) == multiset(s)
    ensures |r| == |s|
  {
    if s == [] then []
    else
      var r := Insert(SortByTime(s[..|s| - 1]), s[|s| - 1]);
      SplitLast(s);
      SameElementsSameLength(r, s);
      r
  }

  lemma SplitLast(s: seq<Slot>)
    requires s != []
    ensures multiset(s) == multiset(s[..|s| - 1]) + multiset{s[|s| - 1]}
  {
    assert s == s[..|s| - 1] + [s[|s| - 1]];
  }

  lemma SameElementsSameLength(a: seq<Slot>, b: seq<Slot>)
    requires multiset(a) == multiset(b)
    ensures |a| == |b|
  {
    assert |a| == |multiset(a)|;
  }

  /** Inserting a slot that starts no earlier than every slot appends it. */
  lemma {:induction false} InsertLast(s: seq<Slot>, x: Slot)
    requires Sorted(s)
    requires forall i :: 0 <= i < |s| ==> TimeLe(s[i].time, x.time)
    ensures Insert(s, x) == s + [x]
  {
    if s != [] {
      InsertLast(s[1..], x);
    }
  }

  /** One step of the sort: the last slot is inserted into the sorted rest. */
  lemma SortByTimeStep(s: seq<Slot>)
    requires s != []
    ensures SortByTime(s) == Insert(SortByTime(s[..|s| - 1]), s[|s| - 1])
  {
  }

  /** Sorting a list that is already sorted leaves it exactly as it is, so the
      re-sort after an insertion never reorders slots with equal times. */
  lemma {:induction false} SortSortedUnchanged(s: seq<Slot>)
    requires Sorted(s)
    ensures SortByTime(s) == s
  {
    if s != [] {
      var init := s[..|s| - 1];
      var x := s[|s| - 1];
      SortedInit(s);
      SortSortedUnchanged(init);
      forall i | 0 <= i < |init| ensures TimeLe(init[i].time, x.time) {
        assert init[i] == s[i];
      }
      InsertLast(init, x);
      SortByTimeStep(s);
      assert s == init + [x];
    }
  }

  /** Removing slots keeps the others in order, hence sorted. */
  lemma {:induction false} WithoutKeyKeepsSorted(s: seq<Slot>, id: string)
    requires Sorted(s)
    ensures Sorted(WithoutKey(s, SlotId, id))
  {
    if s != [] {
      SortedTail(s);
      WithoutKeyKeepsSorted(s[1..], id);
      var rest := WithoutKey(s[1..], SlotId, id);
      if SlotId(s[0]) != id {
        forall j | 0 <= j < |rest| ensures TimeLe(s[0].time, rest[j].time) {
          var k :| 0 <= k < |s[1..]| && s[1..][k] == rest[j];
          assert s[k + 1] == rest[j];
        }
        PrependSorted(s[0], rest);
      }
    }
  }

  /** `getCurrentTimeSlot` as written: the position of the first slot, in list
      order, that starts no later than `now`. */
  function FirstStarted(s: seq<Slot>, now: string): (r: Option<nat>)
    ensures r.Some? ==> r.value < |s| && TimeLe(s[r.value].time, now)
    ensures r.Some? ==> forall j :: 0 <= j < r.value ==> !TimeLe(s[j].time, now)
    ensures r.None? <==> forall j :: 0 <= j < |s| ==> !TimeLe(s[j].time, now)
  {
    if s == [] then None
    else if TimeLe(s[0].time, now) then Some(0)
    else match FirstStarted(s[1..], now)
      case None => None
      case Some(k) => Some(k + 1)
  }

  /** On a sorted timetable the first-match search can only ever answer with
      the first slot of the day. */
  lemma FirstStartedOnSorted(s: seq<Slot>, now: string)
    requires Sorted(s)
    ensures FirstStarted(s, now) == if s != [] && TimeLe(s[0].time, now) then Some(0) else None
  {
    if s != [] && !TimeLe(s[0].time, now) {
      forall j | 0 <= j < |s| ensures !TimeLe(s[j].time, now) {
        if TimeLe(s[j].time, now) {
          TimeLeTransitive(s[0].time, s[j].time, now);
        }
      }
    }
  }

  /** The slot in progress at `now`: the position of the last slot, in list
      order, that starts no later than `now`. */
  function LastStarted(s: seq<Slot>, now: string): (r: Option<nat>)
    ensures r.Some? ==> r.value < |s| && TimeLe(s[r.value].time, now)
    ensures r.Some? ==> forall j :: r.value < j < |s| ==> !TimeLe(s[j].time, now)
    ensures r.None? <==> forall j :: 0 <= j < |s| ==> !TimeLe(s[j].time, now)
  {
    if s == [] then None
    else if TimeLe(s[|s| - 1].time, now) then Some(|s| - 1)
    else LastStarted(s[..|s| - 1], now)
  }

  /** On a sorted timetable the slot in progress is the one that started most
      recently: every slot that has started starts no later than it. */
  lemma LastStartedIsLatest(s: seq<Slot>, now: string)
    requires Sorted(s)
    ensures LastStarted(s, now).Some? ==>
      forall j :: 0 <= j < |s| && TimeLe(s[j].time, now) ==> TimeLe(s[j].time, s[LastStarted(s, now).value].time)
  {
    match LastStarted(s, now)
    case None =>
    case Some(k) =>
      forall j | 0 <= j < |s| && TimeLe(s[j].time, now) ensures TimeLe(s[j].time, s[k].time) {
        if j == k { TimeLeTotal(s[j].time, s[k].time); }
      }
  }

  /** With a breakfast slot at 08:00 and a meeting at 14:00, the search as
      written reports breakfast as the current activity at 15:00, while the
      meeting is the one in progress. */
  lemma CurrentSlotDiscrepancy()
    ensures var s := [Slot("a", "08:00", "Breakfast"), Slot("b", "14:00", "Meeting")];
            Sorted(s) && FirstStarted(s, "15:00") == Some(0) && LastStarted(s, "15:00") == Some(1)
  {
    var s := [Slot("a", "08:00", "Breakfast"), Slot("b", "14:00", "Meeting")];
    assert TimeLe("08:00", "14:00");
    assert !TimeLe("14:00", "08:00");
    assert TimeLe("08:00", "15:00");
    assert TimeLe("14:00", "15:00");
  }

  /** The component's `timeSlots` state. */
  class Timetable {
    var timeSlots: seq<Slot>

    constructor (saved: seq<Slot>)
      ensures timeSlots == saved
    {
      timeSlots := saved;
    }

    /** `addTimeSlot`: refused, changing nothing, when the time or the activity
        is only white space. Otherwise the time as given and the trimmed
        activity become a slot, and the list with it appended is re-sorted. */
    method AddTimeSlot(time: string, activity: string, id: string) returns (added: bool)
      modifies this
      ensures added <==> !IsBlank(time) && !IsBlank(activity)
      ensures !added ==> timeSlots == old(timeSlots)
      ensures added ==> timeSlots == SortByTime(old(timeSlots) + [Slot(id, time, Trim(activity))])
      ensures added ==> Sorted(timeSlots)
      ensures added ==> multiset(timeSlots) == multiset(old(timeSlots)) + multiset{Slot(id, time, Trim(activity))}
      ensures added ==> |timeSlots| == |old(timeSlots)| + 1
    {
      if Trim(time) == "" || Trim(activity) == "" {
        return false;
      }
      var slot := Slot(id, time, Trim(activity));
      timeSlots := SortByTime(timeSlots + [slot]);
      added := true;
    }

    /** `removeTimeSlot`: every slot with the id goes, the rest keep their
        order and so stay sorted. */
    method RemoveTimeSlot(id: string)
      modifies this
      ensures timeSlots == WithoutKey(old(timeSlots), SlotId, id)
      ensures old(Sorted(timeSlots)) ==> Sorted(timeSlots)
    {
      if Sorted(timeSlots) {
        WithoutKeyKeepsSorted(timeSlots, id);
      }
      timeSlots := WithoutKey(timeSlots, SlotId, id);
    }

    /** `getCurrentTimeSlot` as written: the first slot, in list order, whose
        time is not after `now`, or nothing when every slot is later. On the
        sorted list that is the earliest slot of the day (see `FirstStartedOnSorted`). */
    function CurrentTimeSlot(now: string): (r: Option<Slot>)
      reads this
      ensures r.Some? ==> exists k :: 0 <= k < |timeSlots| && timeSlots[k] == r.value
                                 && TimeLe(timeSlots[k].time, now)
                                 && forall j :: 0 <= j < k ==> !TimeLe(timeSlots[j].time, now)
      ensures r.None? <==> forall j :: 0 <= j < |timeSlots| ==> !TimeLe(timeSlots[j].time, now)
    {
      match FirstStarted(timeSlots, now)
      case None => None
      case Some(k) => Some(timeSlots[k])
    }
  }
}
