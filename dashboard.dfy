/**
 * The dashboard object: the day on screen, its record, the settings, the
 * stored history and the one action the undo toast can still reverse.  Each
 * handler changes the record as `Records.Apply` says, writes it back with
 * `Records.Save` and arms the toast with its action.
 */
module Dashboard {
  import opened Wrappers
  import opened Calendar
  import opened Records

  class DashboardApp {
    /** The day on screen. */
    var currentDate: Date
    var settings: Settings
    /** The stored history, keyed by day. */
    var history: History
    /** The record of `currentDate` being edited (`this.state`). */
    var state: DayRecord
    /** The action the undo button reverses while its toast is up; each new toast replaces it. */
    var pendingUndo: Option<Action>

    ghost predicate Valid()
      reads this
    {
      Calendar.Valid(currentDate) && Tracked(history)
    }

    /** Start on `today`, with today's stored record if there is one. */
    constructor(today: Date, stored: History, s: Settings)
      requires Calendar.Valid(today) && Tracked(stored)
      ensures Valid()
      ensures currentDate == today && history == stored && settings == s
      ensures state == Load(stored, today) && pendingUndo == None
    {
      currentDate := today;
      history := stored;
      settings := s;
      state := Load(stored, today);
      pendingUndo := None;
    }

    /** `loadDate(this.currentDate)`: the toast keeps its action. */
    method LoadDate()
      requires Valid()
      modifies this
      ensures Valid()
      ensures state == Load(history, currentDate)
      ensures currentDate == old(currentDate) && history == old(history)
      ensures settings == old(settings) && pendingUndo == old(pendingUndo)
    {
      state := Load(history, currentDate);
    }

    /** Move `direction` days and load that day. */
    method NavigateDate(direction: int)
      requires Valid()
      modifies this
      ensures Valid()
      ensures currentDate == AddDays(old(currentDate), direction)
      ensures state == Load(history, currentDate)
      ensures history == old(history) && settings == old(settings) && pendingUndo == old(pendingUndo)
    {
      currentDate := AddDays(currentDate, direction);
      LoadDate();
    }

    method GoToToday(today: Date)
      requires Valid() && Calendar.Valid(today)
      modifies this
      ensures Valid()
      ensures currentDate == today && state == Load(history, today)
      ensures history == old(history) && settings == old(settings) && pendingUndo == old(pendingUndo)
    {
      currentDate := today;
      LoadDate();
    }

    /** Write the record of the day on screen, stamped `now`, into the history. */
    method SaveHistory(now: string)
      requires Valid()
      modifies this
      ensures Valid()
      ensures history == Save(old(history), currentDate, state, now)
      ensures currentDate == old(currentDate) && state == old(state)
      ensures settings == old(settings) && pendingUndo == old(pendingUndo)
    {
      SaveKeepsTracked(history, currentDate, state, now);
      history := Save(history, currentDate, state, now);
    }

    /** Arm the toast with `a`, apply it, and save. */
    method Perform(a: Action, now: string)
      requires Valid()
      modifies this
      ensures Valid()
      ensures state == Apply(old(state), a) && pendingUndo == Some(a)
      ensures history == Save(old(history), currentDate, state, now)
      ensures currentDate == old(currentDate) && settings == old(settings)
    {
      pendingUndo := Some(a);
      state := Apply(state, a);
      SaveHistory(now);
    }

    /** The routine switch: flips the first item with `id`; nothing happens when there is none. */
    method ToggleRoutine(id: int, now: string) returns (found: bool)
      requires Valid()
      modifies this
      ensures Valid()
      ensures found <==> exists k :: 0 <= k < |old(state).morningRoutine| && old(state).morningRoutine[k].id == id
      ensures found ==> state == Apply(old(state), Action.ToggleRoutine(id)) && pendingUndo == Some(Action.ToggleRoutine(id))
      ensures found ==> history == Save(old(history), currentDate, state, now)
      ensures !found ==> state == old(state) && history == old(history) && pendingUndo == old(pendingUndo)
      ensures currentDate == old(currentDate) && settings == old(settings)
    {
      var routine := state.morningRoutine;
      var i := 0;
      while i < |routine| && routine[i].id != id
        invariant 0 <= i <= |routine|
        invariant forall k :: 0 <= k < i ==> routine[k].id != id
      {
        i := i + 1;
      }
      found := i < |routine|;
      if found {
        assert FirstWithId(routine, id, i);
        pendingUndo := Some(Action.ToggleRoutine(id));
        state := state.(morningRoutine := routine[i := Flipped(routine[i])]);
        SaveHistory(now);
      }
    }

    /** The plus button of a drink counter. */
    method Increment(d: Drink, now: string)
      requires Valid()
      modifies this
      ensures Valid()
      ensures state.consumption.Get(d) == old(state).consumption.Get(d) + 1
      ensures forall o :: o != d ==> state.consumption.Get(o) == old(state).consumption.Get(o)
      ensures state == Apply(old(state), Action.Increment(d)) && pendingUndo == Some(Action.Increment(d))
      ensures history == Save(old(history), currentDate, state, now)
      ensures currentDate == old(currentDate) && settings == old(settings)
    {
      Perform(Action.Increment(d), now);
    }

    /** The minus button: only a counter above 0 goes down, and only then is there a toast. */
    method Decrement(d: Drink, now: string) returns (done: bool)
      requires Valid()
      modifies this
      ensures Valid()
      ensures done <==> old(state).consumption.Get(d) > 0
      ensures done ==> state.consumption.Get(d) == old(state).consumption.Get(d) - 1
      ensures done ==> state == Apply(old(state), Action.Decrement(d)) && pendingUndo == Some(Action.Decrement(d))
      ensures done ==> history == Save(old(history), currentDate, state, now)
      ensures !done ==> state == old(state) && history == old(history) && pendingUndo == old(pendingUndo)
      ensures currentDate == old(currentDate) && settings == old(settings)
    {
      done := state.consumption.Get(d) > 0;
      if done {
        Perform(Action.Decrement(d), now);
      }
    }

    /** An archery button: logs a session with the click's `Date.now()` as its id. */
    method AddArchery(kind: ArcheryKind, id: int, timestamp: string, now: string) returns (entry: ArcheryEntry)
      requires Valid()
      modifies this
      ensures Valid()
      ensures entry == ArcheryEntry(id, kind, timestamp)
      ensures state.archery == old(state).archery + [entry]
      ensures state == Apply(old(state), Action.AddArchery(entry)) && pendingUndo == Some(Action.AddArchery(entry))
      ensures history == Save(old(history), currentDate, state, now)
      ensures currentDate == old(currentDate) && settings == old(settings)
    {
      entry := ArcheryEntry(id, kind, timestamp);
      Perform(Action.AddArchery(entry), now);
    }

    /**
     * The remove button of a session: the toast keeps the first entry with
     * `id`, and every entry with `id` goes.
     */
    method RemoveArchery(id: int, now: string) returns (removed: Option<ArcheryEntry>)
      requires Valid()
      modifies this
      ensures Valid()
      ensures removed.None? <==> FreshId(old(state).archery, id)
      ensures removed.Some? ==> removed.value in old(state).archery && removed.value.id == id
      ensures removed.Some? ==> exists i :: 0 <= i < |old(state).archery| && old(state).archery[i] == removed.value && FreshId(old(state).archery[..i], id)
      ensures removed.Some? ==> forall e :: e in state.archery <==> e in old(state).archery && e.id != id
      ensures removed.Some? ==> state == Apply(old(state), Action.RemoveArchery(removed.value))
      ensures removed.Some? ==> pendingUndo == Some(Action.RemoveArchery(removed.value))
      ensures removed.Some? ==> history == Save(old(history), currentDate, state, now)
      ensures removed.None? ==> state == old(state) && history == old(history) && pendingUndo == old(pendingUndo)
      ensures currentDate == old(currentDate) && settings == old(settings)
    {
      var archery := state.archery;
      var i := 0;
      while i < |archery| && archery[i].id != id
        invariant 0 <= i <= |archery|
        invariant forall k :: 0 <= k < i ==> archery[k].id != id
      {
        i := i + 1;
      }
      if i < |archery| {
        assert FreshId(archery[..i], id);
        removed := Some(archery[i]);
        Perform(Action.RemoveArchery(archery[i]), now);
      } else {
        removed := None;
      }
    }

    /** A self-care checkbox. */
    method ToggleSelfCare(kind: SelfCareKind, now: string)
      requires Valid()
      modifies this
      ensures Valid()
      ensures state.selfCare.Get(kind) == !old(state).selfCare.Get(kind)
      ensures state == Apply(old(state), Action.ToggleSelfCare(kind)) && pendingUndo == Some(Action.ToggleSelfCare(kind))
      ensures history == Save(old(history), currentDate, state, now)
      ensures currentDate == old(currentDate) && settings == old(settings)
    {
      Perform(Action.ToggleSelfCare(kind), now);
    }

    /** The reset button, when the dialog is confirmed: no toast, so no undo. */
    method ResetConsumption(confirmed: bool, now: string)
      requires Valid()
      modifies this
      ensures Valid()
      ensures confirmed ==> state == old(state).(consumption := NoConsumption)
      ensures confirmed ==> history == Save(old(history), currentDate, state, now)
      ensures !confirmed ==> state == old(state) && history == old(history)
      ensures pendingUndo == old(pendingUndo) && currentDate == old(currentDate) && settings == old(settings)
    {
      if confirmed {
        state := state.(consumption := NoConsumption);
        SaveHistory(now);
      }
    }

    /**
     * The clear-data button, once confirmed: the stored history and settings
     * are removed, so the record and the settings start over from their
     * defaults.  The day on screen and an armed undo stay as they were.
     */
    method ClearData(confirmed: bool)
      requires Valid()
      modifies this
      ensures Valid()
      ensures confirmed ==> history == map[] && settings == DefaultSettings && state == DefaultDay()
      ensures !confirmed ==> history == old(history) && settings == old(settings) && state == old(state)
      ensures currentDate == old(currentDate) && pendingUndo == old(pendingUndo)
    {
      if confirmed {
        history := map[];
        settings := DefaultSettings;
        state := Load(history, currentDate);
      }
    }

    /** The toast hides and its undo is gone. */
    method DismissToast()
      requires Valid()
      modifies this
      ensures Valid()
      ensures pendingUndo == None
      ensures state == old(state) && history == old(history)
      ensures currentDate == old(currentDate) && settings == old(settings)
    {
      pendingUndo := None;
    }

    /**
     * The undo button: reverses the toast's action on the record on screen,
     * which is the day the action was taken on unless the user moved since,
     * and saves it.
     */
    method UndoLast(now: string) returns (undone: bool)
      requires Valid()
      modifies this
      ensures Valid()
      ensures undone <==> old(pendingUndo).Some?
      ensures undone ==> state == Undo(old(state), old(pendingUndo).value)
      ensures undone ==> history == Save(old(history), currentDate, state, now)
      ensures !undone ==> state == old(state) && history == old(history)
      ensures pendingUndo == None
      ensures currentDate == old(currentDate) && settings == old(settings)
    {
      undone := pendingUndo.Some?;
      if undone {
        state := Undo(state, pendingUndo.value);
        SaveHistory(now);
      }
      pendingUndo := None;
    }
  }
}
