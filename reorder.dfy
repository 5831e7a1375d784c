/** What the enumerate loops of `update_link_order` and
    `update_widget_order` in dashboard/views.py do to the tables: each posted
    id that names an existing row gets its position in the list as `order`
    (links are also moved to the target widget); unknown ids are skipped. */
module Reorder {
  import opened Models
  import opened Ordering

  /** The position of the last occurrence of `x` in `ids`: the index the
      loop writes last, and so the one that stays. */
  function LastIndex(ids: seq<Id>, x: Id): (i: nat)
    requires x in ids
    ensures i < |ids| && ids[i] == x
    ensures forall j :: i < j < |ids| ==> ids[j] != x
    decreases |ids|
  {
    if ids[|ids| - 1] == x then |ids| - 1 else LastIndex(ids[..|ids| - 1], x)
  }

  /** The links table after the loop of `update_link_order` has run over
      `ids` for the target widget `w`. */
  function ReorderLinks(links: map<Id, Link>, w: Id, ids: seq<Id>): map<Id, Link>
    decreases |ids|
  {
    if |ids| == 0 then links
    else
      var before := ReorderLinks(links, w, ids[..|ids| - 1]);
      var x := ids[|ids| - 1];
      if x in before then before[x := before[x].(widget := w, order := |ids| - 1)] else before
  }

  /** Each posted link ends up in `w` with its last position as `order`;
      every other link and every other column is untouched. */
  lemma {:induction false} ReorderLinksAt(links: map<Id, Link>, w: Id, ids: seq<Id>)
    ensures ReorderLinks(links, w, ids).Keys == links.Keys
    ensures forall x :: x in links && x in ids ==>
      ReorderLinks(links, w, ids)[x] == links[x].(widget := w, order := LastIndex(ids, x))
    ensures forall x :: x in links && x !in ids ==> ReorderLinks(links, w, ids)[x] == links[x]
    decreases |ids|
  {
    if |ids| > 0 {
      var init := ids[..|ids| - 1];
      ReorderLinksAt(links, w, init);
      forall x | x in ids ensures x == ids[|ids| - 1] || x in init {
        var k :| 0 <= k < |ids| && ids[k] == x;
        if k < |ids| - 1 { assert init[k] == x; }
      }
      forall x | x in init ensures x in ids {
        var k :| 0 <= k < |init| && init[k] == x;
        assert ids[k] == x;
      }
    }
  }

  /** Posting the same list twice leaves the links as posting it once. */
  lemma ReorderLinksIdempotent(links: map<Id, Link>, w: Id, ids: seq<Id>)
    ensures ReorderLinks(ReorderLinks(links, w, ids), w, ids) == ReorderLinks(links, w, ids)
  {
    var once := ReorderLinks(links, w, ids);
    ReorderLinksAt(links, w, ids);
    ReorderLinksAt(once, w, ids);
  }

  /** When the posted list names, without repetition, existing links that
      include every link already in `w`, then `w` afterwards lists exactly
      those links in exactly the posted order. */
  lemma ReorderedLinksListing(db: Db, w: Id, ids: seq<Id>)
    requires forall i, j :: 0 <= i < j < |ids| ==> ids[i] != ids[j]
    requires forall i :: 0 <= i < |ids| ==> ids[i] in db.links
    requires forall l :: l in db.links && db.links[l].widget == w ==> l in ids
    ensures Listing(LinkOrders(db.(links := ReorderLinks(db.links, w, ids)), w)) == ids
  {
    var after := db.(links := ReorderLinks(db.links, w, ids));
    ReorderLinksAt(db.links, w, ids);
    var m := LinkOrders(after, w);
    forall i | 0 <= i < |ids| ensures m[ids[i]] == i {
      assert LastIndex(ids, ids[i]) == i;
    }
    PositionsListing(m, ids);
  }

  /** The widgets table after the loop of `update_widget_order` over `ids`. */
  function ReorderWidgets(widgets: map<Id, Widget>, ids: seq<Id>): map<Id, Widget>
    decreases |ids|
  {
    if |ids| == 0 then widgets
    else
      var before := ReorderWidgets(widgets, ids[..|ids| - 1]);
      var x := ids[|ids| - 1];
      if x in before then before[x := before[x].(order := |ids| - 1)] else before
  }

  lemma {:induction false} ReorderWidgetsAt(widgets: map<Id, Widget>, ids: seq<Id>)
    ensures ReorderWidgets(widgets, ids).Keys == widgets.Keys
    ensures forall x :: x in widgets && x in ids ==>
      ReorderWidgets(widgets, ids)[x] == widgets[x].(order := LastIndex(ids, x))
    ensures forall x :: x in widgets && x !in ids ==> ReorderWidgets(widgets, ids)[x] == widgets[x]
    decreases |ids|
  {
    if |ids| > 0 {
      var init := ids[..|ids| - 1];
      ReorderWidgetsAt(widgets, init);
      forall x | x in ids ensures x == ids[|ids| - 1] || x in init {
        var k :| 0 <= k < |ids| && ids[k] == x;
        if k < |ids| - 1 { assert init[k] == x; }
      }
      forall x | x in init ensures x in ids {
        var k :| 0 <= k < |init| && init[k] == x;
        assert ids[k] == x;
      }
    }
  }

  /** Reordering widgets never moves a widget to another page, and changes
      no column but `order`. */
  lemma ReorderWidgetsKeepsPages(widgets: map<Id, Widget>, ids: seq<Id>)
    ensures forall x :: x in widgets ==>
      && x in ReorderWidgets(widgets, ids)
      && ReorderWidgets(widgets, ids)[x].page == widgets[x].page
      && ReorderWidgets(widgets, ids)[x].title == widgets[x].title
      && ReorderWidgets(widgets, ids)[x].widgetType == widgets[x].widgetType
      && ReorderWidgets(widgets, ids)[x].content == widgets[x].content
  {
    ReorderWidgetsAt(widgets, ids);
  }

  /** Posting the same widget list twice gives the state of posting it once. */
  lemma ReorderWidgetsIdempotent(widgets: map<Id, Widget>, ids: seq<Id>)
    ensures ReorderWidgets(ReorderWidgets(widgets, ids), ids) == ReorderWidgets(widgets, ids)
  {
    var once := ReorderWidgets(widgets, ids);
    ReorderWidgetsAt(widgets, ids);
    ReorderWidgetsAt(once, ids);
  }

  /** When the posted list is exactly the widgets of page `p`, without
      repetition, the page afterwards lists them in the posted order. */
  lemma ReorderedWidgetsListing(db: Db, p: Id, ids: seq<Id>)
    requires forall i, j :: 0 <= i < j < |ids| ==> ids[i] != ids[j]
    requires forall x :: x in ids <==> x in db.widgets && db.widgets[x].page == p
    ensures Listing(WidgetOrders(db.(widgets := ReorderWidgets(db.widgets, ids)), p)) == ids
  {
    var after := db.(widgets := ReorderWidgets(db.widgets, ids));
    ReorderWidgetsAt(db.widgets, ids);
    var m := WidgetOrders(after, p);
    forall i | 0 <= i < |ids| ensures m[ids[i]] == i {
      assert LastIndex(ids, ids[i]) == i;
    }
    PositionsListing(m, ids);
  }
}
