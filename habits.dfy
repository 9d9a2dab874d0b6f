/** The habit tracker: a list of habits, each with a streak counter, a
    "done today" flag and the day it was last completed. Days are integer
    day numbers (the day the app calls "today" is passed in). */
module Habits {
  import opened Common

  datatype Habit = Habit(
    id: string,
    name: string,
    streak: int,
    completedToday: bool,
    lastCompleted: Option<int>)

  function HabitId(h: Habit): string { h.id }

  /** A habit as `addHabit` creates it: the trimmed name, no streak, not done. */
  function NewHabit(id: string, name: string): (h: Habit)
    ensures h.id == id && h.name == Trim(name)
    ensures h.streak == 0 && !h.completedToday && h.lastCompleted == None
  {
    Habit(id, Trim(name), 0, false, None)
  }

  /** The toggle rule of `toggleHabit`, applied to one habit. Completing adds
      one to the streak unless the habit was already counted today (there is
      no check that the previous completion was yesterday); un-completing takes
      the day back, never below zero, only if it was counted today.
      Completing records today; un-completing clears the date. */
  function Toggle(h: Habit, today: int): (r: Habit)
    ensures r.id == h.id && r.name == h.name
    ensures r.completedToday == !h.completedToday
    ensures r.lastCompleted == if r.completedToday then Some(today) else None
    ensures r.completedToday && h.lastCompleted != Some(today) ==> r.streak == h.streak + 1
    ensures r.completedToday && h.lastCompleted == Some(today) ==> r.streak == h.streak
    ensures !r.completedToday && h.lastCompleted == Some(today) ==> r.streak == Max(0, h.streak - 1)
    ensures !r.completedToday && h.lastCompleted != Some(today) ==> r.streak == h.streak
  {
    var completed := !h.completedToday;
    var streak :=
      if completed then
        (if h.lastCompleted != Some(today) then h.streak + 1 else h.streak)
      else
        (if h.lastCompleted == Some(today) then Max(0, h.streak - 1) else h.streak);
    h.(completedToday := completed, streak := streak,
       lastCompleted := if completed then Some(today) else None)
  }

  /** The shape every habit keeps when only `addHabit` and `toggleHabit`
      touch it: the streak is not negative, a date is recorded exactly when the
      habit is marked done, and a habit marked done has a streak of at least one. */
  predicate Consistent(h: Habit)
  {
    && h.streak >= 0
    && (h.completedToday <==> h.lastCompleted.Some?)
    && (h.completedToday ==> h.streak >= 1)
  }

  lemma NewHabitConsistent(id: string, name: string)
    ensures Consistent(NewHabit(id, name))
  {
  }

  /** Toggling keeps a habit consistent, whatever day it happens on. */
  lemma ToggleKeepsConsistent(h: Habit, today: int)
    requires Consistent(h)
    ensures Consistent(Toggle(h, today))
  {
  }

  /** Completing and then un-completing on the same day gives back the streak
      and the flag; the precondition holds for every consistent habit that is
      not done yet. */
  lemma CompleteThenUncomplete(h: Habit, today: int)
    requires !h.completedToday && h.lastCompleted != Some(today) && h.streak >= 0
    ensures Toggle(Toggle(h, today), today).streak == h.streak
    ensures Toggle(Toggle(h, today), today).completedToday == h.completedToday
  {
  }

  /** Un-completing and then re-completing on the day it was completed gives
      back the streak, the flag and the date. */
  lemma UncompleteThenComplete(h: Habit, today: int)
    requires h.completedToday && h.lastCompleted == Some(today) && h.streak >= 1
    ensures Toggle(Toggle(h, today), today) == h
  {
  }

  /** Completing after a gap of several days does not restart the streak at
      one: it still grows by one, as it would on the next day. */
  lemma GapDoesNotReset(h: Habit, today: int, gap: int)
    requires !h.completedToday && gap >= 1 && h.lastCompleted == Some(today - gap)
    ensures Toggle(h, today).streak == h.streak + 1
    ensures Toggle(h, today).lastCompleted == Some(today)
  {
  }

  /** The effect of toggling once on each of the given days in turn. */
  function ToggleOnDays(h: Habit, days: seq<int>): (r: Habit)
    ensures r.id == h.id && r.name == h.name
    decreases |days|
  {
    if days == [] then h else ToggleOnDays(Toggle(h, days[0]), days[1..])
  }

  /** The streak never becomes negative, whatever toggles happen on whatever days. */
  lemma {:induction false} StreakNeverNegative(h: Habit, days: seq<int>)
    requires h.streak >= 0
    ensures ToggleOnDays(h, days).streak >= 0
    decreases |days|
  {
    if days != [] {
      StreakNeverNegative(Toggle(h, days[0]), days[1..]);
    }
  }

  /** A consistent habit stays consistent under any sequence of toggles. */
  lemma {:induction false} ConsistentAcrossToggles(h: Habit, days: seq<int>)
    requires Consistent(h)
    ensures Consistent(ToggleOnDays(h, days))
    decreases |days|
  {
    if days != [] {
      ToggleKeepsConsistent(h, days[0]);
      ConsistentAcrossToggles(Toggle(h, days[0]), days[1..]);
    }
  }

  /** `habits.map(h => h.id === id ? toggled : h)`: every habit with the id
      is toggled, the others and the order stay as they were, and an id that
      is not in the list changes nothing. */
  function ToggleById(hs: seq<Habit>, id: string, today: int): (r: seq<Habit>)
    ensures |r| == |hs|
    ensures forall i :: 0 <= i < |hs| && hs[i].id == id ==> r[i] == Toggle(hs[i], today)
    ensures forall i :: 0 <= i < |hs| && hs[i].id != id ==> r[i] == hs[i]
    ensures (forall i :: 0 <= i < |hs| ==> hs[i].id != id) ==> r == hs
  {
    if hs == [] then []
    else [if hs[0].id == id then Toggle(hs[0], today) else hs[0]] + ToggleById(hs[1..], id, today)
  }

  predicate AllConsistent(hs: seq<Habit>)
  {
    forall i :: 0 <= i < |hs| ==> Consistent(hs[i])
  }

  /** Adding a new habit keeps every habit of the list consistent. */
  lemma AppendKeepsConsistent(hs: seq<Habit>, id: string, name: string)
    requires AllConsistent(hs)
    ensures AllConsistent(hs + [NewHabit(id, name)])
  {
  }

  /** Toggling by id keeps every habit of the list consistent. */
  lemma ToggleByIdKeepsConsistent(hs: seq<Habit>, id: string, today: int)
    requires AllConsistent(hs)
    ensures AllConsistent(ToggleById(hs, id, today))
  {
    var t := ToggleById(hs, id, today);
    forall i | 0 <= i < |t| ensures Consistent(t[i]) {
      if hs[i].id == id {
        ToggleKeepsConsistent(hs[i], today);
      }
    }
  }

  /** Deleting by id keeps every remaining habit consistent. */
  lemma DeleteKeepsConsistent(hs: seq<Habit>, id: string)
    requires AllConsistent(hs)
    ensures AllConsistent(WithoutKey(hs, HabitId, id))
  {
    var w := WithoutKey(hs, HabitId, id);
    forall i | 0 <= i < |w| ensures Consistent(w[i]) {
      var j :| 0 <= j < |hs| && hs[j] == w[i];
    }
  }

  /** The component's `habits` state. Each user action replaces the list. */
  class HabitTracker {
    var habits: seq<Habit>

    /** The list starts as whatever was saved before. */
    constructor (saved: seq<Habit>)
      ensures habits == saved
    {
      habits := saved;
    }

    /** `addHabit`: a name that is only white space is refused and nothing
        changes; otherwise a new habit with the trimmed name is appended. */
    method AddHabit(name: string, id: string) returns (added: bool)
      modifies this
      ensures added <==> !IsBlank(name)
      ensures habits == if added then old(habits) + [NewHabit(id, name)] else old(habits)
      ensures old(AllConsistent(habits)) ==> AllConsistent(habits)
    {
      if Trim(name) == "" {
        return false;
      }
      if AllConsistent(habits) {
        AppendKeepsConsistent(habits, id, name);
      }
      habits := habits + [NewHabit(id, name)];
      added := true;
    }

    /** `toggleHabit`: an unknown id changes nothing (the list is searched
        first); otherwise every habit with the id is toggled in place. */
    method ToggleHabit(id: string, today: int)
      modifies this
      ensures habits == ToggleById(old(habits), id, today)
      ensures old(AllConsistent(habits)) ==> AllConsistent(habits)
    {
      var i := 0;
      while i < |habits| && habits[i].id != id
        invariant 0 <= i <= |habits|
        invariant forall j :: 0 <= j < i ==> habits[j].id != id
      {
        i := i + 1;
      }
      if i == |habits| {
        return;
      }
      if AllConsistent(habits) {
        ToggleByIdKeepsConsistent(habits, id, today);
      }
      habits := ToggleById(habits, id, today);
    }

    /** `deleteHabit`: removes every habit with the id, keeping the order of the rest. */
    method DeleteHabit(id: string)
      modifies this
      ensures habits == WithoutKey(old(habits), HabitId, id)
      ensures old(AllConsistent(habits)) ==> AllConsistent(habits)
    {
      if AllConsistent(habits) {
        DeleteKeepsConsistent(habits, id);
      }
      habits := WithoutKey(habits, HabitId, id);
    }
  }
}
