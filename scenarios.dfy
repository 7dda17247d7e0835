/** Worked examples on the default dashboard and a grid 1200 px wide. */
module Scenarios {
  import opened Wrappers
  import opened GridGeometry
  import opened Widgets
  import opened WidgetLists
  import opened Dashboard
  import opened WidgetCardResize

  /** On a 1200 px grid a column is 288 px wide and the four spans are 288, 592, 896 and 1200 px. */
  lemma WideGridWidths()
    ensures ColumnWidth(1200.0) == 288.0
    ensures ColumnExtents(1200.0) == [288.0, 592.0, 896.0, 1200.0]
  {
  }

  /** Live size 896 x 272 on a 1200 px grid snaps to three columns by three rows. */
  lemma SnapThreeByThree()
    ensures NearestColSpan(1200.0, 896.0) == 3
    ensures NearestRowSpan(272.0) == 3
  {
    ColumnRoundTrip(1200.0, 3);
    RowRoundTrip(3);
  }

  /** Removing "acs" from the default dashboard leaves 15 widgets and a bank holding just "acs". */
  lemma RemoveAcs()
    ensures
      var r := RemoveWidget(DefaultLayout(), "acs");
      && r.widgets == RemoveAt(InitialWidgets(), 7) && |r.widgets| == 15
      && "acs" !in Ids(r.widgets)
      && r.bank == [InitialWidgets()[7]] && Ids(r.bank) == ["acs"]
  {
    AcsIsEntrySeven();
    RemoveWidgetMoves(DefaultLayout(), "acs");
    RemoveWidgetFiltersOut(DefaultLayout(), "acs");
  }

  lemma AcsIsEntrySeven()
    ensures Ids(InitialWidgets())[7] == "acs"
    ensures FindIndex(InitialWidgets(), "acs") == 7
  {
    InitialIdsDistinct();
    FindIndexOfEntry(InitialWidgets(), 7);
  }

  lemma EventsIsEntryTwelve()
    ensures Ids(InitialWidgets())[12] == "events"
    ensures FindIndex(InitialWidgets(), "events") == 12
  {
    InitialIdsDistinct();
    FindIndexOfEntry(InitialWidgets(), 12);
  }

  /** The state after "events" went to the bank. */
  lemma EventsInBank()
    ensures
      var l := RemoveWidget(DefaultLayout(), "events");
      && l.widgets == RemoveAt(InitialWidgets(), 12)
      && Ids(l.bank) == ["events"]
  {
    EventsIsEntryTwelve();
    RemoveWidgetMoves(DefaultLayout(), "events");
    RemoveWidgetFiltersOut(DefaultLayout(), "events");
  }

  /**
   * After "events" has gone to the bank, dragging it back onto "ansible"
   * (index 2) puts it at index 2, shifts "ansible" to index 3 and empties the bank.
   */
  lemma EventsBackBeforeAnsible()
    ensures
      var l := RemoveWidget(DefaultLayout(), "events");
      var r := DragEnd(l, BankId("events"), Some("ansible"));
      && |r.widgets| == 16 && r.bank == []
      && r.widgets[2].id == "events" && r.widgets[3].id == "ansible"
  {
    var l := RemoveWidget(DefaultLayout(), "events");
    EventsInBank();
    AnsibleStaysThird();
    assert |l.widgets| == 15 && l.widgets[2].id == "ansible";
    RemoveWidgetConsistent(DefaultLayout(), "events");
    assert Consistent(l);
    assert Ids(l.bank) == ["events"];
    assert "ansible"[0] == 'a';
    NotBankIdByFirst(l.widgets[2].id);
    DropBeforeThird(l, "events");
  }

  lemma AnsibleStaysThird()
    ensures RemoveAt(InitialWidgets(), 12)[2].id == "ansible"
  {
    var seed := InitialWidgets();
    assert RemoveAt(seed, 12)[2] == seed[2];
  }

  /** A bank holding only `id`, dropped before the dashboard's third widget. */
  lemma DropBeforeThird(l: Layout, id: string)
    requires Consistent(l) && Ids(l.bank) == [id] && |l.widgets| > 2 && !IsBankId(l.widgets[2].id)
    ensures
      var r := DragEnd(l, BankId(id), Some(l.widgets[2].id));
      && |r.widgets| == |l.widgets| + 1 && r.bank == []
      && r.widgets[2].id == id && r.widgets[3] == l.widgets[2]
  {
    BankIdRoundTrip(id);
    DistinctSplit(Ids(l.widgets), Ids(l.bank));
    FindIndexOfEntry(l.widgets, 2);
    assert FindIndex(l.bank, id) == 0;
    BankDropBefore(l, BankId(id), Some(l.widgets[2].id));
  }

  /** Committing 3 x 3 for "image-builder" changes its entry (index 5) only. */
  lemma ResizeImageBuilder()
    ensures
      var r := SizeChange(DefaultLayout(), "image-builder", 3, 3);
      && r.widgets[5].id == "image-builder"
      && r.widgets[5].colSpan == 3 && r.widgets[5].rowSpan == 3
      && r.bank == []
      && forall j :: 0 <= j < 16 && j != 5 ==> r.widgets[j] == InitialWidgets()[j]
  {
    var seed := InitialWidgets();
    InitialIdsDistinct();
    forall j | 0 <= j < 16 && j != 5 ensures seed[j].id != "image-builder" {
      assert Ids(seed)[j] != Ids(seed)[5];
    }
  }

  /**
   * The board's handlers in sequence: remove "acs", then reset.  The bank
   * holds exactly "acs" in between, and the reset restores the default layout.
   */
  method RemoveThenReset() returns (banked: seq<string>, afterReset: Layout)
    ensures banked == ["acs"]
    ensures afterReset == DefaultLayout() && afterReset.bank == []
  {
    var board := new Homepage();
    board.HandleRemoveWidget("acs");
    RemoveAcs();
    assert |board.widgets| == 15;
    banked := Ids(board.removedWidgets);
    board.HandleResetToDefault();
    afterReset := board.Snapshot();
  }

  /**
   * A card resized by its handles to 896 x 272 px on a 1200 px grid previews
   * 3 x 3 while the handle moves and commits 3 x 3 for "image-builder" on release.
   */
  method ResizeByHandles() returns (preview: (ColumnSpan, RowSpan), committed: Layout)
    ensures preview == (3, 3)
    ensures committed == SizeChange(DefaultLayout(), "image-builder", 3, 3)
    ensures committed.widgets[5].id == "image-builder"
    ensures committed.widgets[5].colSpan == 3 && committed.widgets[5].rowSpan == 3
  {
    var board := new Homepage();
    var imageBuilder := InitialWidgets()[5];
    var card := new SortableWidgetCard(imageBuilder);
    card.HandleResizeStart(imageBuilder);
    card.HandleResize(1200.0, 896.0, 272.0);
    SnapThreeByThree();
    preview := (card.previewColSpan, card.previewRowSpan);
    card.HandleResizeStop(imageBuilder, 1200.0, 896.0, 272.0, board);
    ResizeImageBuilder();
    committed := board.Snapshot();
  }
}
