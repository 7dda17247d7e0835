/**
 * The resize session of one dashboard card: while the user drags a resize
 * handle the card shows the span the live size would snap to, and on release
 * it commits that span through the dashboard's `onSizeChange` handler.  The
 * card's widget and the grid width are the card's props, read afresh on every
 * event; the live pixel size arrives with each event.
 */
module WidgetCardResize {
  import opened GridGeometry
  import opened Widgets
  import opened WidgetLists
  import opened Dashboard

  class SortableWidgetCard {
    var isResizing: bool
    var previewColSpan: ColumnSpan
    var previewRowSpan: RowSpan

    /** The card's state on mount: idle, the preview showing the widget's own spans. */
    constructor (widget: Widget)
      ensures !isResizing
      ensures previewColSpan == widget.colSpan && previewRowSpan == widget.rowSpan
    {
      isResizing := false;
      previewColSpan := widget.colSpan;
      previewRowSpan := widget.rowSpan;
    }

    /** `handleResizeStart`: the session starts from the widget's committed spans. */
    method HandleResizeStart(widget: Widget)
      modifies this
      ensures isResizing
      ensures previewColSpan == widget.colSpan && previewRowSpan == widget.rowSpan
    {
      isResizing := true;
      previewColSpan := widget.colSpan;
      previewRowSpan := widget.rowSpan;
    }

    /**
     * `handleResize`: only the preview changes, to the spans nearest to the
     * live size under the grid width of this event.
     */
    method HandleResize(gridWidth: real, newWidth: real, newHeight: real)
      modifies this
      ensures isResizing == old(isResizing)
      ensures previewColSpan == NearestColSpan(gridWidth, newWidth)
      ensures previewRowSpan == NearestRowSpan(newHeight)
    {
      var colSpan := ColSpanFromWidth(gridWidth, newWidth);
      var rowSpan := RowSpanFromHeight(newHeight);
      previewColSpan := colSpan;
      previewRowSpan := rowSpan;
    }

    /**
     * `handleResizeStop`: the spans nearest to the final size are committed to
     * the dashboard for this card's widget and the session ends.  The preview
     * fields keep the value of the last move.
     */
    method HandleResizeStop(widget: Widget, gridWidth: real, newWidth: real, newHeight: real, board: Homepage)
      requires board.Valid()
      modifies this, board
      ensures !isResizing
      ensures previewColSpan == old(previewColSpan) && previewRowSpan == old(previewRowSpan)
      ensures board.Valid() && board.activeId == old(board.activeId)
      ensures board.Snapshot() == SizeChange(old(board.Snapshot()), widget.id,
                NearestColSpan(gridWidth, newWidth), NearestRowSpan(newHeight))
    {
      var newColSpan := ColSpanFromWidth(gridWidth, newWidth);
      var newRowSpan := RowSpanFromHeight(newHeight);
      board.HandleSizeChange(widget.id, newColSpan, newRowSpan);
      isResizing := false;
    }
  }

  /**
   * Releasing a resize at exactly the widget's current pixel size commits the
   * spans it already has, so the dashboard does not change.
   */
  lemma UnmovedResizeIsNoOp(l: Layout, i: nat, gridWidth: real)
    requires i < |l.widgets| && Distinct(Ids(l.widgets)) && gridWidth != -16.0
    ensures
      var w := l.widgets[i];
      SizeChange(l, w.id,
        NearestColSpan(gridWidth, WidthForSpan(gridWidth, w.colSpan)),
        NearestRowSpan(HeightForSpan(w.rowSpan))) == l
  {
    var w := l.widgets[i];
    ColumnRoundTrip(gridWidth, w.colSpan);
    RowRoundTrip(w.rowSpan);
    var r := SizeChanged(l.widgets, w.id, w.colSpan, w.rowSpan);
    forall j | 0 <= j < |l.widgets| ensures r[j] == l.widgets[j] {
      if l.widgets[j].id == w.id {
        assert Ids(l.widgets)[j] == Ids(l.widgets)[i];
        assert j == i;
      }
    }
  }
}
