/**
 * One day's record and the settings, as the dashboard keeps them; the default
 * substitution of `loadDate`, the map update of `saveHistory`, and the
 * actions of the event handlers together with the inverse that `undoAction`
 * applies for each.
 */
module Records {
  import opened Wrappers
  import opened Calendar

  /**
   * The four targets.  A `routineTarget` of 0 stands for a missing or zero
   * setting, which every reader replaces by 7; the other targets are read as
   * stored, so a `waterTarget` of 0 is compared as 0.
   */
  datatype Settings = Settings(routineTarget: nat, waterTarget: nat, coffeeTarget: nat, teaTarget: nat)

  const DefaultSettings := Settings(7, 8, 2, 1)

  /** `this.settings.routineTarget || 7`. */
  function RoutineTarget(s: Settings): (t: nat)
    ensures t > 0
    ensures s.routineTarget > 0 ==> t == s.routineTarget
    ensures s.routineTarget == 0 ==> t == DefaultSettings.routineTarget
  {
    if s.routineTarget == 0 then 7 else s.routineTarget
  }

  datatype RoutineItem = RoutineItem(id: int, time: string, activity: string, completed: bool)

  /** `getDefaultRoutine()`: the seven morning items, none done. */
  function DefaultRoutine(): (r: seq<RoutineItem>)
    ensures |r| == 7
    ensures forall i :: 0 <= i < |r| ==> r[i].id == i + 1 && !r[i].completed
  {
    [ RoutineItem(1, "4:55", "Wake up + water", false),
      RoutineItem(2, "5:05", "Run (10 min)", false),
      RoutineItem(3, "5:15", "Stretching & exercise (15 min)", false),
      RoutineItem(4, "5:35", "Breathing / meditation", false),
      RoutineItem(5, "5:40", "Study / writing / deep work", false),
      RoutineItem(6, "6:20", "News & world awareness", false),
      RoutineItem(7, "7:00", "General routine", false) ]
  }

  /** `morningRoutine.filter(r => r.completed).length`: every item counts, not only the targeted ones. */
  function CompletedCount(routine: seq<RoutineItem>): (n: nat)
    ensures n <= |routine|
    ensures n == 0 <==> forall i :: 0 <= i < |routine| ==> !routine[i].completed
  {
    if |routine| == 0 then 0
    else CompletedCount(routine[..|routine| - 1]) + (if routine[|routine| - 1].completed then 1 else 0)
  }

  datatype Drink = Water | Coffee | Tea

  datatype Consumption = Consumption(water: nat, coffee: nat, tea: nat) {
    /** `consumption[type]`. */
    function Get(d: Drink): nat {
      match d
      case Water => water
      case Coffee => coffee
      case Tea => tea
    }

    function Set(d: Drink, n: nat): (r: Consumption)
      ensures r.Get(d) == n
      ensures forall o :: o != d ==> r.Get(o) == Get(o)
    {
      match d
      case Water => this.(water := n)
      case Coffee => this.(coffee := n)
      case Tea => this.(tea := n)
    }

    /** `consumption[type]++`. */
    function Bump(d: Drink): (r: Consumption)
      ensures r.Get(d) == Get(d) + 1
      ensures forall o :: o != d ==> r.Get(o) == Get(o)
    {
      Set(d, Get(d) + 1)
    }

    /** `if (consumption[type] > 0) consumption[type]--`. */
    function Drop(d: Drink): (r: Consumption)
      ensures Get(d) > 0 ==> r.Get(d) == Get(d) - 1
      ensures Get(d) == 0 ==> r == this
      ensures forall o :: o != d ==> r.Get(o) == Get(o)
    {
      if Get(d) > 0 then Set(d, Get(d) - 1) else this
    }
  }

  const NoConsumption := Consumption(0, 0, 0)

  datatype ArcheryKind = Class | Stretching | Shooting | Workout

  /** The id is the `Date.now()` of the click that logged the entry. */
  datatype ArcheryEntry = ArcheryEntry(id: int, kind: ArcheryKind, timestamp: string)

  datatype SelfCareKind = Hair | Face

  datatype SelfCare = SelfCare(hair: bool, face: bool) {
    function Get(k: SelfCareKind): bool {
      match k
      case Hair => hair
      case Face => face
    }

    /** `selfCare[type] = !selfCare[type]`. */
    function Flip(k: SelfCareKind): (r: SelfCare)
      ensures r.Get(k) == !Get(k)
      ensures forall o :: o != k ==> r.Get(o) == Get(o)
    {
      match k
      case Hair => this.(hair := !hair)
      case Face => this.(face := !face)
    }
  }

  const NoSelfCare := SelfCare(false, false)

  /** `this.state` without its `date`, which is the day's key. */
  datatype DayRecord = DayRecord(
    morningRoutine: seq<RoutineItem>,
    consumption: Consumption,
    archery: seq<ArcheryEntry>,
    selfCare: SelfCare)

  function DefaultDay(): DayRecord {
    DayRecord(DefaultRoutine(), NoConsumption, [], NoSelfCare)
  }

  /** A stored record: a field can be absent when the record came from an imported file. */
  datatype StoredDay = StoredDay(
    morningRoutine: Option<seq<RoutineItem>>,
    consumption: Option<Consumption>,
    archery: Option<seq<ArcheryEntry>>,
    selfCare: Option<SelfCare>,
    timestamp: Option<string>)

  /** The `dashboardHistory` map from day to record. */
  type History = map<Date, StoredDay>

  /** `loadDate`: the stored record of `date`, every absent part replaced by its default. */
  function Load(h: History, date: Date): (r: DayRecord)
    ensures date !in h ==> r == DefaultDay()
    ensures date in h && h[date].morningRoutine.Some? ==> r.morningRoutine == h[date].morningRoutine.value
    ensures date in h && h[date].morningRoutine.None? ==> r.morningRoutine == DefaultRoutine()
    ensures date in h && h[date].consumption.Some? ==> r.consumption == h[date].consumption.value
    ensures date in h && h[date].consumption.None? ==> r.consumption == NoConsumption
    ensures date in h && h[date].archery.Some? ==> r.archery == h[date].archery.value
    ensures date in h && h[date].archery.None? ==> r.archery == []
    ensures date in h && h[date].selfCare.Some? ==> r.selfCare == h[date].selfCare.value
    ensures date in h && h[date].selfCare.None? ==> r.selfCare == NoSelfCare
  {
    if date in h then
      var s := h[date];
      DayRecord(
        s.morningRoutine.GetOr(DefaultRoutine()),
        s.consumption.GetOr(NoConsumption),
        s.archery.GetOr([]),
        s.selfCare.GetOr(NoSelfCare))
    else DefaultDay()
  }

  /** `saveHistory`: the day's record, stamped with `now`, replaces the entry for `date` and nothing else. */
  function Save(h: History, date: Date, day: DayRecord, now: string): (r: History)
    ensures r.Keys == h.Keys + {date}
    ensures forall d :: d in h && d != date ==> r[d] == h[d]
    ensures r[date].timestamp == Some(now)
    ensures Load(r, date) == day
  {
    h[date := StoredDay(Some(day.morningRoutine), Some(day.consumption), Some(day.archery), Some(day.selfCare), Some(now))]
  }

  /** Every stored record has its routine: the metrics read it without a fallback. */
  predicate Tracked(h: History) {
    forall d :: d in h ==> h[d].morningRoutine.Some?
  }

  lemma SaveKeepsTracked(h: History, date: Date, day: DayRecord, now: string)
    requires Tracked(h)
    ensures Tracked(Save(h, date, day, now))
  {
  }

  // The handlers' actions, each with the payload the undo toast keeps.

  datatype Action =
    | ToggleRoutine(id: int)
    | Increment(drink: Drink)
    | Decrement(drink: Drink)
    | ToggleSelfCare(kind: SelfCareKind)
    | AddArchery(entry: ArcheryEntry)
    | RemoveArchery(entry: ArcheryEntry)

  /** `i` is where `morningRoutine.find(r => r.id === id)` stops. */
  predicate FirstWithId(routine: seq<RoutineItem>, id: int, i: int) {
    0 <= i < |routine| && routine[i].id == id && forall k :: 0 <= k < i ==> routine[k].id != id
  }

  function Flipped(item: RoutineItem): RoutineItem {
    item.(completed := !item.completed)
  }

  /** `item = find(id); if (item) item.completed = !item.completed`. */
  function ToggleItem(routine: seq<RoutineItem>, id: int): (r: seq<RoutineItem>)
    ensures |r| == |routine|
    ensures (forall k :: 0 <= k < |routine| ==> routine[k].id != id) ==> r == routine
    ensures forall i :: FirstWithId(routine, id, i) ==> r == routine[i := Flipped(routine[i])]
  {
    if |routine| == 0 then routine
    else if routine[0].id == id then [Flipped(routine[0])] + routine[1..]
    else
      var rest := ToggleItem(routine[1..], id);
      assert forall i :: FirstWithId(routine, id, i) ==> FirstWithId(routine[1..], id, i - 1);
      assert forall i :: 0 < i < |routine| ==> [routine[0]] + routine[1..][i - 1 := Flipped(routine[i])] == routine[i := Flipped(routine[i])];
      [routine[0]] + rest
  }

  lemma {:induction false} ToggleItemTwice(routine: seq<RoutineItem>, id: int)
    ensures ToggleItem(ToggleItem(routine, id), id) == routine
  {
    if |routine| > 0 && routine[0].id != id {
      ToggleItemTwice(routine[1..], id);
      assert ToggleItem(routine, id)[1..] == ToggleItem(routine[1..], id);
    }
  }

  /** `archery.filter(a => a.id !== id)`. */
  function Without(archery: seq<ArcheryEntry>, id: int): (r: seq<ArcheryEntry>)
    ensures |r| <= |archery|
    ensures forall e :: e in r <==> e in archery && e.id != id
  {
    if |archery| == 0 then []
    else
      var last := archery[|archery| - 1];
      Without(archery[..|archery| - 1], id) + (if last.id == id then [] else [last])
  }

  /** `filter` distributes over concatenation, so it keeps the entries in their order. */
  lemma {:induction false} WithoutAppend(a: seq<ArcheryEntry>, b: seq<ArcheryEntry>, id: int)
    ensures Without(a + b, id) == Without(a, id) + Without(b, id)
  {
    if |b| > 0 {
      var init := b[..|b| - 1];
      assert (a + b)[..|a + b| - 1] == a + init;
      assert (a + b)[|a + b| - 1] == b[|b| - 1];
      WithoutAppend(a, init, id);
    } else {
      assert a + b == a;
    }
  }

  /** `filter` keeps every entry with another id as often as it occurs, and none with `id`. */
  lemma {:induction false} WithoutCounts(archery: seq<ArcheryEntry>, id: int)
    ensures forall e :: multiset(Without(archery, id))[e] == if e.id == id then 0 else multiset(archery)[e]
  {
    if |archery| > 0 {
      var init := archery[..|archery| - 1];
      var last := archery[|archery| - 1];
      assert archery == init + [last];
      WithoutCounts(init, id);
    }
  }

  predicate FreshId(archery: seq<ArcheryEntry>, id: int) {
    forall k :: 0 <= k < |archery| ==> archery[k].id != id
  }

  predicate UniqueIds(archery: seq<ArcheryEntry>) {
    forall i, j :: 0 <= i < j < |archery| ==> archery[i].id != archery[j].id
  }

  lemma {:induction false} WithoutFresh(archery: seq<ArcheryEntry>, id: int)
    requires FreshId(archery, id)
    ensures Without(archery, id) == archery
  {
    if |archery| > 0 {
      WithoutFresh(archery[..|archery| - 1], id);
    }
  }

  /** Removing the id of the last entry, unique in the list, removes exactly that entry. */
  lemma WithoutLast(archery: seq<ArcheryEntry>, e: ArcheryEntry)
    requires |archery| > 0 && archery[|archery| - 1] == e && UniqueIds(archery)
    ensures Without(archery, e.id) == archery[..|archery| - 1]
  {
    var init := archery[..|archery| - 1];
    assert FreshId(init, e.id);
    WithoutFresh(init, e.id);
  }

  lemma {:induction false} WithoutUnique(archery: seq<ArcheryEntry>, e: ArcheryEntry)
    requires e in archery && UniqueIds(archery)
    ensures multiset(Without(archery, e.id)) + multiset{e} == multiset(archery)
  {
    var n := |archery|;
    var init, last := archery[..n - 1], archery[n - 1];
    assert archery == init + [last];
    var j :| 0 <= j < n && archery[j] == e;
    if j == n - 1 {
      WithoutLast(archery, e);
    } else {
      assert init[j] == e && last.id != e.id;
      WithoutUnique(init, e);
      calc {
        multiset(Without(archery, e.id)) + multiset{e};
        multiset(Without(init, e.id) + [last]) + multiset{e};
        multiset(Without(init, e.id)) + multiset{e} + multiset{last};
        multiset(init) + multiset{last};
        multiset(archery);
      }
    }
  }

  /** The record after a handler has done `a`. */
  function Apply(day: DayRecord, a: Action): (r: DayRecord)
    ensures !a.ToggleRoutine? ==> r.morningRoutine == day.morningRoutine
    ensures !(a.Increment? || a.Decrement?) ==> r.consumption == day.consumption
    ensures !(a.AddArchery? || a.RemoveArchery?) ==> r.archery == day.archery
    ensures !a.ToggleSelfCare? ==> r.selfCare == day.selfCare
    ensures |r.morningRoutine| == |day.morningRoutine|
  {
    match a
    case ToggleRoutine(id) => day.(morningRoutine := ToggleItem(day.morningRoutine, id))
    case Increment(d) => day.(consumption := day.consumption.Bump(d))
    case Decrement(d) => day.(consumption := day.consumption.Drop(d))
    case ToggleSelfCare(k) => day.(selfCare := day.selfCare.Flip(k))
    case AddArchery(e) => day.(archery := day.archery + [e])
    case RemoveArchery(e) => day.(archery := Without(day.archery, e.id))
  }

  /** The record after `undoAction` reverses `a`. */
  function Undo(day: DayRecord, a: Action): (r: DayRecord)
    ensures !a.ToggleRoutine? ==> r.morningRoutine == day.morningRoutine
    ensures !(a.Increment? || a.Decrement?) ==> r.consumption == day.consumption
    ensures !(a.AddArchery? || a.RemoveArchery?) ==> r.archery == day.archery
    ensures !a.ToggleSelfCare? ==> r.selfCare == day.selfCare
    ensures |r.morningRoutine| == |day.morningRoutine|
  {
    match a
    case ToggleRoutine(id) => day.(morningRoutine := ToggleItem(day.morningRoutine, id))
    case Increment(d) => day.(consumption := day.consumption.Drop(d))
    case Decrement(d) => day.(consumption := day.consumption.Bump(d))
    case ToggleSelfCare(k) => day.(selfCare := day.selfCare.Flip(k))
    case AddArchery(e) => day.(archery := Without(day.archery, e.id))
    case RemoveArchery(e) => day.(archery := day.archery + [e])
  }

  /**
   * What a handler checks before it acts and offers an undo: a counter above 0
   * to decrement, a new id to add, an entry present (ids distinct) to remove.
   */
  predicate Offered(day: DayRecord, a: Action) {
    match a
    case Decrement(d) => day.consumption.Get(d) > 0
    case AddArchery(e) => FreshId(day.archery, e.id)
    case RemoveArchery(e) => e in day.archery && UniqueIds(day.archery)
    case _ => true
  }

  /** Undo gives back the record as it was before the action. */
  lemma UndoRestores(day: DayRecord, a: Action)
    requires Offered(day, a) && !a.RemoveArchery?
    ensures Undo(Apply(day, a), a) == day
  {
    match a
    case ToggleRoutine(id) => ToggleItemTwice(day.morningRoutine, id);
    case AddArchery(e) =>
      assert FreshId(day.archery, e.id);
      WithoutFresh(day.archery, e.id);
      assert Without(day.archery + [e], e.id) == Without(day.archery, e.id) by {
        assert (day.archery + [e])[..|day.archery|] == day.archery;
      }
    case Increment(d) =>
    case Decrement(d) =>
    case ToggleSelfCare(k) =>
      assert day.selfCare.Flip(k).Flip(k) == day.selfCare by {
        match k
        case Hair =>
        case Face =>
      }
  }

  /** Undoing a removal puts the entry back at the end: the same entries, not the same order. */
  lemma UndoRemoveRestoresEntries(day: DayRecord, e: ArcheryEntry)
    requires Offered(day, RemoveArchery(e))
    ensures multiset(Undo(Apply(day, RemoveArchery(e)), RemoveArchery(e)).archery) == multiset(day.archery)
    ensures Undo(Apply(day, RemoveArchery(e)), RemoveArchery(e)).(archery := day.archery) == day
  {
    WithoutUnique(day.archery, e);
  }

  lemma UndoRemoveCanReorder(a: ArcheryEntry, b: ArcheryEntry)
    requires a.id != b.id
    ensures Undo(Apply(DayRecord([], NoConsumption, [a, b], NoSelfCare), RemoveArchery(a)), RemoveArchery(a)).archery == [b, a]
  {
    assert [a, b][..1] == [a];
    assert [a][..0] == [];
    assert Without([a], a.id) == [];
    assert Without([a, b], a.id) == [b];
  }
}
