/**
 * The dashboard's persisted state: the ordered `widgets` list shown on the
 * grid, the bank of removed widgets (`removedWidgets`) and the id of the drag
 * in progress (`activeId`).  Each handler is modelled twice: as a function on
 * a `Layout` value, about which the invariant lemmas speak, and as a method of
 * the `Homepage` class that reassigns the fields as the handler does.
 */
module Dashboard {
  import opened Wrappers
  import opened GridGeometry
  import opened Widgets
  import opened WidgetLists

  /** The two widget collections. */
  datatype Layout = Layout(widgets: seq<Widget>, bank: seq<Widget>)

  /** Every id in the system: dashboard first, then bank. */
  function AllIds(l: Layout): seq<string>
  {
    Ids(l.widgets) + Ids(l.bank)
  }

  /**
   * Invariant I1: every id is in exactly one of the two collections and occurs
   * there once, and the ids are those of the seed catalogue, none lost.
   */
  ghost predicate Consistent(l: Layout)
  {
    Distinct(AllIds(l)) && multiset(AllIds(l)) == multiset(Ids(InitialWidgets()))
  }

  /** The state on first render and after `handleResetToDefault`. */
  function DefaultLayout(): (l: Layout)
    ensures Consistent(l)
    ensures |l.widgets| == 16 && l.bank == []
  {
    InitialIdsDistinct();
    Layout(InitialWidgets(), [])
  }

  /** `handleSizeChange(id, colSpan, rowSpan)`. */
  function SizeChange(l: Layout, id: string, c: ColumnSpan, r: RowSpan): Layout
  {
    Layout(SizeChanged(l.widgets, id, c, r), l.bank)
  }

  /** `handleRemoveWidget(id)`: filtered out of the dashboard, first match appended to the bank. */
  function RemoveWidget(l: Layout, id: string): Layout
  {
    match Find(l.widgets, id)
    case None => l
    case Some(w) => Layout(RemoveId(l.widgets, id), l.bank + [w])
  }

  /** A drag end on the reorder path: a dashboard drag released over another non-bank id. */
  predicate IsReorder(active: string, over: Option<string>)
  {
    !IsBankId(active) && over.Some? && active != over.value && !IsBankId(over.value)
  }

  /**
   * What the host guarantees on the reorder path: both ids are on the
   * dashboard (the drag and drop targets there are the dashboard's widgets).
   */
  predicate MoveTargetsFound(l: Layout, active: string, over: Option<string>)
  {
    IsReorder(active, over) ==> active in Ids(l.widgets) && over.value in Ids(l.widgets)
  }

  /** `handleDragEnd({ active, over })` on the widget collections. */
  function DragEnd(l: Layout, active: string, over: Option<string>): Layout
    requires MoveTargetsFound(l, active, over)
  {
    if IsBankId(active) then
      var widgetId := StripBank(active);
      match Find(l.bank, widgetId)
      case None => l
      case Some(w) =>
        var bank := RemoveId(l.bank, widgetId);
        if over.Some? && !IsBankId(over.value) && FindIndex(l.widgets, over.value) != -1 then
          Layout(InsertAt(l.widgets, FindIndex(l.widgets, over.value), w), bank)
        else
          Layout(l.widgets + [w], bank)
    else if IsReorder(active, over) then
      Layout(ArrayMove(l.widgets, FindIndex(l.widgets, active), FindIndex(l.widgets, over.value)), l.bank)
    else
      l
  }

  // ---------------------------------------------------------------------------
  // Invariant I1

  /** A state with the same ids as a consistent one is consistent. */
  lemma SameIdsConsistent(l: Layout, r: Layout)
    requires Consistent(l) && multiset(AllIds(r)) == multiset(AllIds(l))
    ensures Consistent(r)
  {
    DistinctPermutation(AllIds(l), AllIds(r));
  }

  /** Resizing changes no id and leaves the bank alone. */
  lemma SizeChangeConsistent(l: Layout, id: string, c: ColumnSpan, r: RowSpan)
    requires Consistent(l)
    ensures AllIds(SizeChange(l, id, c, r)) == AllIds(l)
    ensures Consistent(SizeChange(l, id, c, r))
  {
  }

  /**
   * Removing a dashboard widget moves exactly that entry to the end of the
   * bank; the rest of the dashboard keeps its order.  An id not on the
   * dashboard changes nothing.
   */
  lemma RemoveWidgetMoves(l: Layout, id: string)
    requires Consistent(l)
    ensures id !in Ids(l.widgets) ==> RemoveWidget(l, id) == l
    ensures id in Ids(l.widgets) ==>
      var i := FindIndex(l.widgets, id);
      RemoveWidget(l, id) == Layout(RemoveAt(l.widgets, i), l.bank + [l.widgets[i]])
  {
    if id in Ids(l.widgets) {
      DistinctSplit(Ids(l.widgets), Ids(l.bank));
      RemoveIdUnique(l.widgets, id, FindIndex(l.widgets, id));
    }
  }

  /** Taking the single copy of `id` out of one multiset and adding it to another keeps the sum. */
  lemma MoveOne(from: multiset<string>, to: multiset<string>, id: string)
    requires from[id] == 1
    ensures from[id := 0] + (to + multiset{id}) == from + to
  {
  }

  /**
   * Removing a dashboard widget filters its id out of the dashboard and
   * appends the first widget with that id to the bank.
   */
  lemma RemoveWidgetFiltersOut(l: Layout, id: string)
    requires id in Ids(l.widgets)
    ensures RemoveWidget(l, id).widgets == RemoveId(l.widgets, id)
    ensures id !in Ids(RemoveWidget(l, id).widgets)
    ensures Ids(RemoveWidget(l, id).bank) == Ids(l.bank) + [id]
  {
    IdsConcat(l.bank, [Find(l.widgets, id).value]);
  }

  /** Removing a widget keeps the multiset of ids. */
  lemma RemoveWidgetConserves(l: Layout, id: string)
    requires Distinct(AllIds(l))
    ensures multiset(AllIds(RemoveWidget(l, id))) == multiset(AllIds(l))
  {
    var r := RemoveWidget(l, id);
    if id in Ids(l.widgets) {
      var w := l.widgets[FindIndex(l.widgets, id)];
      DistinctSplit(Ids(l.widgets), Ids(l.bank));
      CountedOnce(Ids(l.widgets), id);
      IdsConcat(l.bank, [w]);
      assert Ids(r.bank) == Ids(l.bank) + [id];
      assert multiset(Ids(r.widgets)) == multiset(Ids(l.widgets))[id := 0];
      MoveOne(multiset(Ids(l.widgets)), multiset(Ids(l.bank)), id);
    }
  }

  /** Removing a widget keeps every id, once, in one of the two collections. */
  lemma RemoveWidgetConsistent(l: Layout, id: string)
    requires Consistent(l)
    ensures Consistent(RemoveWidget(l, id))
  {
    RemoveWidgetConserves(l, id);
    SameIdsConsistent(l, RemoveWidget(l, id));
  }

  /** A bank drag whose widget is not in the bank changes nothing. */
  lemma BankDragMissing(l: Layout, active: string, over: Option<string>)
    requires IsBankId(active) && StripBank(active) !in Ids(l.bank)
    ensures DragEnd(l, active, over) == l
  {
  }

  /**
   * A bank widget released over a dashboard widget at index `i` is inserted
   * at `i`: the old occupant and everything after it shift one place later,
   * and exactly that entry leaves the bank.
   */
  lemma BankDropBefore(l: Layout, active: string, over: Option<string>)
    requires Consistent(l) && IsBankId(active) && StripBank(active) in Ids(l.bank)
    requires over.Some? && !IsBankId(over.value) && over.value in Ids(l.widgets)
    ensures
      var i := FindIndex(l.widgets, over.value);
      var j := FindIndex(l.bank, StripBank(active));
      var r := DragEnd(l, active, over);
      && r.widgets == InsertAt(l.widgets, i, l.bank[j])
      && r.widgets[i + 1] == l.widgets[i]
      && r.bank == RemoveAt(l.bank, j)
  {
    DistinctSplit(Ids(l.widgets), Ids(l.bank));
    RemoveIdUnique(l.bank, StripBank(active), FindIndex(l.bank, StripBank(active)));
  }

  /**
   * A bank widget released anywhere else (no target, a bank target, or an id
   * not on the dashboard) is appended to the dashboard, and exactly that
   * entry leaves the bank.
   */
  lemma BankDropAppend(l: Layout, active: string, over: Option<string>)
    requires Consistent(l) && IsBankId(active) && StripBank(active) in Ids(l.bank)
    requires over.None? || IsBankId(over.value) || over.value !in Ids(l.widgets)
    ensures
      var j := FindIndex(l.bank, StripBank(active));
      DragEnd(l, active, over) == Layout(l.widgets + [l.bank[j]], RemoveAt(l.bank, j))
  {
    DistinctSplit(Ids(l.widgets), Ids(l.bank));
    RemoveIdUnique(l.bank, StripBank(active), FindIndex(l.bank, StripBank(active)));
  }

  /**
   * A dashboard drag released over nothing, over itself or over a bank id
   * changes nothing: a drag never removes a widget from the dashboard.
   */
  lemma DashboardDragNoOp(l: Layout, active: string, over: Option<string>)
    requires !IsBankId(active)
    requires over.None? || over.value == active || IsBankId(over.value)
    ensures DragEnd(l, active, over) == l
  {
  }

  /**
   * A reorder puts the dragged widget at the target's index, keeps the
   * length and the bank, and leaves the relative order of all other widgets
   * as it was.
   */
  lemma DashboardReorder(l: Layout, active: string, over: Option<string>)
    requires IsReorder(active, over) && MoveTargetsFound(l, active, over)
    ensures
      var a := FindIndex(l.widgets, active);
      var b := FindIndex(l.widgets, over.value);
      var r := DragEnd(l, active, over);
      && r.bank == l.bank
      && |r.widgets| == |l.widgets|
      && r.widgets[b] == l.widgets[a] && r.widgets[b].id == active
      && RemoveAt(r.widgets, b) == RemoveAt(l.widgets, a)
      && multiset(r.widgets) == multiset(l.widgets)
  {
  }

  /** A bank widget found in the bank leaves it and is placed on the dashboard, once. */
  lemma BankTransferIds(l: Layout, active: string, over: Option<string>)
    requires IsBankId(active) && StripBank(active) in Ids(l.bank)
    ensures multiset(Ids(DragEnd(l, active, over).widgets)) == multiset(Ids(l.widgets)) + multiset{StripBank(active)}
    ensures multiset(Ids(DragEnd(l, active, over).bank)) == multiset(Ids(l.bank))[StripBank(active) := 0]
  {
    var id := StripBank(active);
    var w := l.bank[FindIndex(l.bank, id)];
    if over.Some? && !IsBankId(over.value) && FindIndex(l.widgets, over.value) != -1 {
      IdsInsertAt(l.widgets, FindIndex(l.widgets, over.value), w);
      InsertAtMultiset(Ids(l.widgets), FindIndex(l.widgets, over.value), id);
    } else {
      IdsConcat(l.widgets, [w]);
    }
  }

  /** A widget leaving the bank for the dashboard keeps the multiset of ids. */
  lemma BankTransferConserves(l: Layout, active: string, over: Option<string>)
    requires Distinct(AllIds(l)) && IsBankId(active) && StripBank(active) in Ids(l.bank)
    ensures multiset(AllIds(DragEnd(l, active, over))) == multiset(AllIds(l))
  {
    var id := StripBank(active);
    DistinctSplit(Ids(l.widgets), Ids(l.bank));
    CountedOnce(Ids(l.bank), id);
    BankTransferIds(l, active, over);
    MoveOne(multiset(Ids(l.bank)), multiset(Ids(l.widgets)), id);
  }

  /** Every drag end keeps the multiset of ids. */
  lemma DragEndConserves(l: Layout, active: string, over: Option<string>)
    requires Distinct(AllIds(l)) && MoveTargetsFound(l, active, over)
    ensures multiset(AllIds(DragEnd(l, active, over))) == multiset(AllIds(l))
  {
    if IsBankId(active) {
      if StripBank(active) in Ids(l.bank) {
        BankTransferConserves(l, active, over);
      }
    } else if IsReorder(active, over) {
      IdsArrayMove(l.widgets, FindIndex(l.widgets, active), FindIndex(l.widgets, over.value));
    }
  }

  /** Every drag end keeps every id, once, in one of the two collections. */
  lemma DragEndConsistent(l: Layout, active: string, over: Option<string>)
    requires Consistent(l) && MoveTargetsFound(l, active, over)
    ensures Consistent(DragEnd(l, active, over))
  {
    DragEndConserves(l, active, over);
    SameIdsConsistent(l, DragEnd(l, active, over));
  }

  // ---------------------------------------------------------------------------
  // The component's state and handlers

  class Homepage {
    var widgets: seq<Widget>
    var activeId: Option<string>
    var removedWidgets: seq<Widget>

    /** The two collections as a value. */
    function Snapshot(): Layout
      reads this
    {
      Layout(widgets, removedWidgets)
    }

    ghost predicate Valid()
      reads this
    {
      Consistent(Snapshot())
    }

    constructor ()
      ensures Valid() && Snapshot() == DefaultLayout() && activeId == None
    {
      var initial := DefaultLayout();
      widgets := initial.widgets;
      activeId := None;
      removedWidgets := initial.bank;
    }

    /** `handleDragStart`: only the dragged id is recorded. */
    method HandleDragStart(id: string)
      modifies this
      ensures activeId == Some(id)
      ensures widgets == old(widgets) && removedWidgets == old(removedWidgets)
    {
      activeId := Some(id);
    }

    /** `handleDragEnd`: the drag is over, and the collections are reconciled. */
    method HandleDragEnd(active: string, over: Option<string>)
      requires Valid() && MoveTargetsFound(Snapshot(), active, over)
      modifies this
      ensures Valid() && activeId == None
      ensures Snapshot() == DragEnd(old(Snapshot()), active, over)
    {
      DragEndConsistent(Snapshot(), active, over);
      activeId := None;
      if IsBankId(active) {
        var widgetId := StripBank(active);
        var widgetToAdd := Find(removedWidgets, widgetId);
        if widgetToAdd.Some? {
          removedWidgets := RemoveId(removedWidgets, widgetId);
          if over.Some? {
            var overIdStr := over.value;
            if !IsBankId(overIdStr) {
              var overIndex := FindIndex(widgets, overIdStr);
              if overIndex != -1 {
                widgets := InsertAt(widgets, overIndex, widgetToAdd.value);
                return;
              }
            }
          }
          widgets := widgets + [widgetToAdd.value];
        }
        return;
      }
      if over.Some? && active != over.value {
        var overIdStr := over.value;
        if !IsBankId(overIdStr) {
          var oldIndex := FindIndex(widgets, active);
          var newIndex := FindIndex(widgets, overIdStr);
          widgets := ArrayMove(widgets, oldIndex, newIndex);
        }
      }
    }

    /** `handleSizeChange` (the `onSizeChange` callback of every card). */
    method HandleSizeChange(id: string, colSpan: ColumnSpan, rowSpan: RowSpan)
      requires Valid()
      modifies this
      ensures Valid() && activeId == old(activeId)
      ensures Snapshot() == SizeChange(old(Snapshot()), id, colSpan, rowSpan)
    {
      SizeChangeConsistent(Snapshot(), id, colSpan, rowSpan);
      widgets := SizeChanged(widgets, id, colSpan, rowSpan);
    }

    /** `handleResetToDefault`: from any state. */
    method HandleResetToDefault()
      modifies this
      ensures Valid() && activeId == old(activeId)
      ensures Snapshot() == DefaultLayout()
    {
      var initial := DefaultLayout();
      widgets := initial.widgets;
      removedWidgets := initial.bank;
    }

    /** `handleRemoveWidget`. */
    method HandleRemoveWidget(widgetId: string)
      requires Valid()
      modifies this
      ensures Valid() && activeId == old(activeId)
      ensures Snapshot() == RemoveWidget(old(Snapshot()), widgetId)
    {
      RemoveWidgetConsistent(Snapshot(), widgetId);
      var widgetToRemove := Find(widgets, widgetId);
      if widgetToRemove.Some? {
        widgets := RemoveId(widgets, widgetId);
        removedWidgets := removedWidgets + [widgetToRemove.value];
      }
    }

    /** `isFromBank`: the drag in progress started in the bank. */
    function IsFromBank(): bool
      reads this
    {
      activeId.Some? && IsBankId(activeId.value)
    }

    /** `activeWidget`: the widget being dragged, looked up in the collection it came from. */
    function ActiveWidget(): (r: Option<Widget>)
      reads this
      ensures r.Some? ==>
        activeId.Some? &&
        (if IsFromBank() then r.value in removedWidgets && BankId(r.value.id) == activeId.value
         else r.value in widgets && r.value.id == activeId.value)
      ensures r.None? <==>
        || activeId.None? || activeId.value == ""
        || (IsFromBank() && StripBank(activeId.value) !in Ids(removedWidgets))
        || (!IsFromBank() && activeId.value !in Ids(widgets))
    {
      if activeId.None? || activeId.value == "" then None
      else if IsBankId(activeId.value) then Find(removedWidgets, StripBank(activeId.value))
      else Find(widgets, activeId.value)
    }
  }
}
