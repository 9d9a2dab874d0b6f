/** The journal: a newest-first list of entries, each stamped with the day it
    was written and the mood that was selected when it was saved. */
module Journal {
  import opened Common

  /** `mood` is the empty string when no mood was selected. */
  datatype Entry = Entry(id: string, date: int, content: string, mood: string)

  function EntryId(e: Entry): string { e.id }

  /** The labels of the six mood buttons. */
  const MoodLabels: seq<string> := ["Happy", "Calm", "Motivated", "Tired", "Sad", "Frustrated"]

  /** Clicking a mood button: the clicked mood becomes selected exactly when it
      was not the selected one; otherwise the selection is cleared. */
  function NextMood(selected: string, clicked: string): (r: string)
    requires clicked in MoodLabels
    ensures r == clicked <==> selected != clicked
    ensures r != clicked ==> r == ""
  {
    if selected == clicked then "" else clicked
  }

  /** `entries.find(entry => entry.date === day)`: the position of the first
      entry written on `day`, if any. */
  function FirstOnDay(entries: seq<Entry>, day: int): (r: Option<nat>)
    ensures r.Some? ==> r.value < |entries| && entries[r.value].date == day
    ensures r.Some? ==> forall j :: 0 <= j < r.value ==> entries[j].date != day
    ensures r.None? <==> forall j :: 0 <= j < |entries| ==> entries[j].date != day
  {
    if entries == [] then None
    else if entries[0].date == day then Some(0)
    else match FirstOnDay(entries[1..], day)
      case None => None
      case Some(k) => Some(k + 1)
  }

  /** The component's `entries` and `selectedMood` state. */
  class Journal {
    var entries: seq<Entry>
    var selectedMood: string

    constructor (saved: seq<Entry>)
      ensures entries == saved && selectedMood == ""
    {
      entries := saved;
      selectedMood := "";
    }

    /** `addEntry`: a text that is only white space is refused and nothing
        changes. Otherwise the trimmed text, today's date and the selected mood
        (possibly none) become a new entry in front of the others, and the mood
        selection is cleared. */
    method AddEntry(text: string, id: string, today: int) returns (added: bool)
      modifies this
      ensures added <==> !IsBlank(text)
      ensures !added ==> entries == old(entries) && selectedMood == old(selectedMood)
      ensures added ==> entries == [Entry(id, today, Trim(text), old(selectedMood))] + old(entries)
      ensures added ==> selectedMood == ""
      ensures added ==> TodaysEntry(today) == Some(entries[0])
    {
      if Trim(text) == "" {
        return false;
      }
      var entry := Entry(id, today, Trim(text), selectedMood);
      entries := [entry] + entries;
      selectedMood := "";
      added := true;
    }

    /** `removeEntry`: every entry with the id goes, the rest keep their order. */
    method RemoveEntry(id: string)
      modifies this
      ensures entries == WithoutKey(old(entries), EntryId, id)
      ensures selectedMood == old(selectedMood)
    {
      entries := WithoutKey(entries, EntryId, id);
    }

    /** The `onClick` of a mood button. */
    method SelectMood(clicked: string)
      requires clicked in MoodLabels
      modifies this
      ensures selectedMood == NextMood(old(selectedMood), clicked)
      ensures entries == old(entries)
    {
      selectedMood := if selectedMood == clicked then "" else clicked;
    }

    /** `getTodaysEntry`: the first (that is, newest) entry written today, or
        nothing when there is none. */
    function TodaysEntry(today: int): (r: Option<Entry>)
      reads this
      ensures r.Some? ==> r.value in entries && r.value.date == today
      ensures r.Some? ==> exists k :: 0 <= k < |entries| && entries[k] == r.value
                                  && forall j :: 0 <= j < k ==> entries[j].date != today
      ensures r.None? <==> forall j :: 0 <= j < |entries| ==> entries[j].date != today
    {
      match FirstOnDay(entries, today)
      case None => None
      case Some(k) => Some(entries[k])
    }
  }
}
