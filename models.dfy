/** The record shapes of dashboard/models.py: three tables (Page, Widget, Link)
    linked by CASCADE foreign keys, with the unique page slug as a table
    constraint. The database is a value `Db`; the views operate on it through
    the `Dashboard` class of module Views. */
module Models {

  datatype Option<+T> = None | Some(value: T)

  /** Primary keys (Django's auto-increment `id`). */
  type Id = nat

  /** Default of every `order` IntegerField. */
  const DefaultOrder: int := 0

  /** The `widget_type` choices; `List` is the field's default. */
  datatype WidgetType = List | Note | Command

  /** The code stored in the `widget_type` column for each choice. */
  function ChoiceCode(t: WidgetType): (code: string)
    ensures 0 < |code| <= 10
  {
    match t
    case List => "list"
    case Note => "note"
    case Command => "command"
  }

  /** The choice a stored code stands for, if it is one of the three. */
  function ChoiceOf(code: string): (r: Option<WidgetType>)
    ensures r.Some? ==> ChoiceCode(r.value) == code
    ensures r.None? ==> forall t: WidgetType :: ChoiceCode(t) != code
  {
    if code == "list" then Some(List)
    else if code == "note" then Some(Note)
    else if code == "command" then Some(Command)
    else None
  }

  lemma ChoiceCodeRoundTrip(t: WidgetType)
    ensures ChoiceOf(ChoiceCode(t)) == Some(t)
  {
  }

  datatype Page = Page(name: string, slug: string, order: int)

  /** `content` is nullable (used by notes); `widget_type` defaults to list. */
  datatype Widget = Widget(title: string, page: Id, order: int, widgetType: WidgetType, content: Option<string>)

  /** `url` and `icon_url` are nullable. */
  datatype Link = Link(title: string, url: Option<string>, iconUrl: Option<string>, widget: Id, order: int)

  /** A widget row as `Widget.objects.create(title=..., page=..., order=...)`
      writes it: the other columns take their defaults. */
  function NewWidget(title: string, page: Id, order: int): Widget
  {
    Widget(title, page, order, List, None)
  }

  /** The three tables and the next value of each auto-increment counter. */
  datatype Db = Db(pages: map<Id, Page>, widgets: map<Id, Widget>, links: map<Id, Link>,
                   nextPage: Id, nextWidget: Id, nextLink: Id)

  /** `slug = models.SlugField(unique=True)`. */
  predicate SlugsUnique(pages: map<Id, Page>)
  {
    forall p, q :: p in pages && q in pages && p != q ==> pages[p].slug != pages[q].slug
  }

  /** Every foreign key points at an existing row. */
  predicate NoOrphans(db: Db)
  {
    && (forall w :: w in db.widgets ==> db.widgets[w].page in db.pages)
    && (forall l :: l in db.links ==> db.links[l].widget in db.widgets)
  }

  /** Every existing id is below its table's counter, so new ids are fresh. */
  predicate FreshCounters(db: Db)
  {
    && (forall p :: p in db.pages ==> p < db.nextPage)
    && (forall w :: w in db.widgets ==> w < db.nextWidget)
    && (forall l :: l in db.links ==> l < db.nextLink)
  }

  predicate Valid(db: Db)
  {
    SlugsUnique(db.pages) && NoOrphans(db) && FreshCounters(db)
  }

  /** The widgets whose `page` foreign key is `p` (`page.widgets`). */
  function WidgetsOf(db: Db, p: Id): set<Id>
  {
    set w | w in db.widgets && db.widgets[w].page == p
  }

  /** The links whose `widget` foreign key is in `ws`. */
  function LinksOf(db: Db, ws: set<Id>): set<Id>
  {
    set l | l in db.links && db.links[l].widget in ws
  }

  /** `widget.delete()`: `Link.widget` is `on_delete=CASCADE`, so the
      widget's links go with it. */
  function CascadeDeleteWidget(db: Db, w: Id): (r: Db)
    requires w in db.widgets
    ensures r.pages == db.pages
    ensures r.widgets.Keys == db.widgets.Keys - {w}
    ensures r.links.Keys == db.links.Keys - LinksOf(db, {w})
    ensures forall x :: x in r.widgets ==> r.widgets[x] == db.widgets[x]
    ensures forall l :: l in r.links ==> r.links[l] == db.links[l]
    ensures r.nextPage == db.nextPage && r.nextWidget == db.nextWidget && r.nextLink == db.nextLink
    ensures Valid(db) ==> Valid(r)
  {
    db.(widgets := map x | x in db.widgets && x != w :: db.widgets[x],
        links := map l | l in db.links && db.links[l].widget != w :: db.links[l])
  }

  /** `page.delete()`: `Widget.page` is `on_delete=CASCADE`, and so in turn
      is `Link.widget`: the page, its widgets and their links go. */
  function CascadeDeletePage(db: Db, p: Id): (r: Db)
    requires p in db.pages
    ensures r.pages.Keys == db.pages.Keys - {p}
    ensures r.widgets.Keys == db.widgets.Keys - WidgetsOf(db, p)
    ensures r.links.Keys == db.links.Keys - LinksOf(db, WidgetsOf(db, p))
    ensures forall q :: q in r.pages ==> r.pages[q] == db.pages[q]
    ensures forall x :: x in r.widgets ==> r.widgets[x] == db.widgets[x]
    ensures forall l :: l in r.links ==> r.links[l] == db.links[l]
    ensures r.nextPage == db.nextPage && r.nextWidget == db.nextWidget && r.nextLink == db.nextLink
    ensures Valid(db) ==> Valid(r)
  {
    var gone := WidgetsOf(db, p);
    db.(pages := map q | q in db.pages && q != p :: db.pages[q],
        widgets := map x | x in db.widgets && x !in gone :: db.widgets[x],
        links := map l | l in db.links && db.links[l].widget !in gone :: db.links[l])
  }

  /** After a page is deleted nothing is left that pointed at it or at its
      widgets: the page has no widgets, and its widgets have no links. */
  lemma CascadePageLeavesNoChildren(db: Db, p: Id)
    requires p in db.pages
    ensures WidgetsOf(CascadeDeletePage(db, p), p) == {}
    ensures LinksOf(CascadeDeletePage(db, p), WidgetsOf(db, p)) == {}
  {
  }

  /** After a widget is deleted it has no links left. */
  lemma CascadeWidgetLeavesNoLinks(db: Db, w: Id)
    requires w in db.widgets
    ensures LinksOf(CascadeDeleteWidget(db, w), {w}) == {}
  {
  }

  /** Deleting a page is the same as deleting each of its widgets (with
      their links) and then the emptied page. */
  lemma CascadeDeletePageByWidgets(db: Db, p: Id, w: Id)
    requires p in db.pages && w in db.widgets && db.widgets[w].page == p
    ensures CascadeDeletePage(CascadeDeleteWidget(db, w), p) == CascadeDeletePage(db, p)
  {
    var a := CascadeDeletePage(CascadeDeleteWidget(db, w), p);
    var b := CascadeDeletePage(db, p);
    SameWidgetsAfterCascade(db, p, w);
    SameLinksAfterCascade(db, p, w);
    assert a.pages == b.pages;
  }

  lemma SameWidgetsAfterCascade(db: Db, p: Id, w: Id)
    requires p in db.pages && w in db.widgets && db.widgets[w].page == p
    ensures CascadeDeletePage(CascadeDeleteWidget(db, w), p).widgets == CascadeDeletePage(db, p).widgets
  {
    var mid := CascadeDeleteWidget(db, w);
    assert WidgetsOf(mid, p) == WidgetsOf(db, p) - {w};
  }

  lemma SameLinksAfterCascade(db: Db, p: Id, w: Id)
    requires p in db.pages && w in db.widgets && db.widgets[w].page == p
    ensures CascadeDeletePage(CascadeDeleteWidget(db, w), p).links == CascadeDeletePage(db, p).links
  {
    var mid := CascadeDeleteWidget(db, w);
    assert WidgetsOf(mid, p) == WidgetsOf(db, p) - {w};
    assert LinksOf(mid, WidgetsOf(mid, p)) + LinksOf(db, {w}) == LinksOf(db, WidgetsOf(db, p));
  }
}
