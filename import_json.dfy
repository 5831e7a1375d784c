/** The `import_json` management command
    (dashboard/management/commands/import_json.py): merge parsed export data
    (page name -> widget title -> list of `[title, url, icon?]`) into the
    store with `get_or_create` on every level, so that rows already present are
    reused and never changed. The pure functions give the database after the
    import; `Handle` is the command's loop nest, proved to compute them. */
module ImportJson {
  import opened Models
  import opened Ordering
  import opened Views

  /** A parsed link entry: `[title, url]` or `[title, url, icon_url, ...]`. */
  type LinkData = d: seq<string> | |d| >= 2 witness ["", ""]

  datatype WidgetData = WidgetData(title: string, links: seq<LinkData>)

  datatype PageData = PageData(name: string, widgets: seq<WidgetData>)

  /** `link_data[2] if len(link_data) > 2 else ""`. */
  function Icon(d: LinkData): string
  {
    if |d| > 2 then d[2] else ""
  }

  // ---------------------------------------------------------------------
  // The lookups of `get_or_create`. Where several rows match, Django raises;
  // this model takes the one with the lowest id.

  function Lowest(s: set<Id>): (r: Option<Id>)
    ensures r.None? <==> s == {}
    ensures r.Some? ==> r.value in s && forall x :: x in s ==> r.value <= x
  {
    if s == {} then None else Some(MinId(s))
  }

  /** The rows each `get_or_create` call matches. */
  function PageMatches(db: Db, slug: string): set<Id>
  {
    set p | p in db.pages && db.pages[p].slug == slug
  }

  function WidgetMatches(db: Db, title: string, page: Id): set<Id>
  {
    set w | w in db.widgets && db.widgets[w].title == title && db.widgets[w].page == page
  }

  function LinkMatches(db: Db, url: string, widget: Id): set<Id>
  {
    set l | l in db.links && db.links[l].url == Some(url) && db.links[l].widget == widget
  }

  function FindPage(db: Db, slug: string): Option<Id>
  {
    Lowest(PageMatches(db, slug))
  }

  function FindWidget(db: Db, title: string, page: Id): Option<Id>
  {
    Lowest(WidgetMatches(db, title, page))
  }

  function FindLink(db: Db, url: string, widget: Id): Option<Id>
  {
    Lowest(LinkMatches(db, url, widget))
  }

  // ---------------------------------------------------------------------
  // The database after the import, level by level. Each loop is a left
  // fold whose counter is the position in the list.

  /** The row `Link.objects.get_or_create` inserts for entry `d`. */
  function NewLink(d: LinkData, w: Id, order: int): Link
  {
    Link(d[0], Some(d[1]), Some(Icon(d)), w, order)
  }

  function ImportLink(db: Db, w: Id, d: LinkData, order: int): Db
  {
    if FindLink(db, d[1], w).Some? then db
    else db.(links := db.links[db.nextLink := NewLink(d, w, order)], nextLink := db.nextLink + 1)
  }

  function ImportLinks(db: Db, w: Id, ds: seq<LinkData>): Db
    decreases |ds|
  {
    if |ds| == 0 then db
    else ImportLink(ImportLinks(db, w, ds[..|ds| - 1]), w, ds[|ds| - 1], |ds| - 1)
  }

  function GetOrCreateWidget(db: Db, p: Id, title: string, order: int): (Db, Id)
  {
    match FindWidget(db, title, p)
    case Some(w) => (db, w)
    case None =>
      (db.(widgets := db.widgets[db.nextWidget := NewWidget(title, p, order)], nextWidget := db.nextWidget + 1),
       db.nextWidget)
  }

  function ImportWidget(db: Db, p: Id, wd: WidgetData, order: int): Db
  {
    var (db1, w) := GetOrCreateWidget(db, p, wd.title, order);
    ImportLinks(db1, w, wd.links)
  }

  function ImportWidgets(db: Db, p: Id, wds: seq<WidgetData>): Db
    decreases |wds|
  {
    if |wds| == 0 then db
    else ImportWidget(ImportWidgets(db, p, wds[..|wds| - 1]), p, wds[|wds| - 1], |wds| - 1)
  }

  function GetOrCreatePage(db: Db, slug: string, name: string): (Db, Id)
  {
    match FindPage(db, slug)
    case Some(p) => (db, p)
    case None =>
      (db.(pages := db.pages[db.nextPage := Page(name, slug, DefaultOrder)], nextPage := db.nextPage + 1),
       db.nextPage)
  }

  function ImportPage(slugify: string -> string, db: Db, pd: PageData): Db
  {
    var (db1, p) := GetOrCreatePage(db, slugify(pd.name), pd.name);
    ImportWidgets(db1, p, pd.widgets)
  }

  function ImportAll(slugify: string -> string, db: Db, data: seq<PageData>): Db
    decreases |data|
  {
    if |data| == 0 then db
    else ImportPage(slugify, ImportAll(slugify, db, data[..|data| - 1]), data[|data| - 1])
  }

  // ---------------------------------------------------------------------
  // The import only inserts, keeps the store valid and never inserts a
  // second link with the same url in the same widget.

  /** `b` is `a` with rows added under fresh ids and nothing else changed. */
  ghost predicate Extends(a: Db, b: Db)
  {
    && a.nextPage <= b.nextPage && a.nextWidget <= b.nextWidget && a.nextLink <= b.nextLink
    && (forall p :: p in a.pages ==> p in b.pages && b.pages[p] == a.pages[p])
    && (forall w :: w in a.widgets ==> w in b.widgets && b.widgets[w] == a.widgets[w])
    && (forall l :: l in a.links ==> l in b.links && b.links[l] == a.links[l])
    && (forall p :: p in b.pages && p !in a.pages ==> a.nextPage <= p)
    && (forall w :: w in b.widgets && w !in a.widgets ==> a.nextWidget <= w)
    && (forall l :: l in b.links && l !in a.links ==> a.nextLink <= l)
  }

  /** No link added since `a` shares its (url, widget) with another link. */
  ghost predicate NewLinksDistinct(a: Db, b: Db)
  {
    forall l, m :: l in b.links && m in b.links && l != m && l !in a.links ==>
      b.links[l].url != b.links[m].url || b.links[l].widget != b.links[m].widget
  }

  ghost predicate Grown(a: Db, b: Db)
  {
    Valid(b) && Extends(a, b) && NewLinksDistinct(a, b)
  }

  lemma GrownRefl(db: Db)
    requires Valid(db)
    ensures Grown(db, db)
  {
  }

  lemma ExtendsTrans(a: Db, b: Db, c: Db)
    requires Extends(a, b) && Extends(b, c)
    ensures Extends(a, c)
  {
  }

  /** Inserting under the next id a link whose url its widget does not
      have yet. */
  lemma InsertLinkGrows(a: Db, db: Db, lk: Link)
    requires Grown(a, db) && lk.widget in db.widgets
    requires forall l :: l in db.links ==> !(db.links[l].url == lk.url && db.links[l].widget == lk.widget)
    ensures Grown(a, db.(links := db.links[db.nextLink := lk], nextLink := db.nextLink + 1))
  {
    var r := db.(links := db.links[db.nextLink := lk], nextLink := db.nextLink + 1);
    InsertLinkValid(db, lk);
    InsertLinkExtends(db, lk);
    ExtendsTrans(a, db, r);
    InsertLinkDistinct(a, db, lk);
  }

  lemma InsertLinkValid(db: Db, lk: Link)
    requires Valid(db) && lk.widget in db.widgets
    ensures Valid(db.(links := db.links[db.nextLink := lk], nextLink := db.nextLink + 1))
  {
  }

  lemma InsertLinkExtends(db: Db, lk: Link)
    requires db.nextLink !in db.links
    ensures Extends(db, db.(links := db.links[db.nextLink := lk], nextLink := db.nextLink + 1))
  {
  }

  lemma InsertLinkDistinct(a: Db, db: Db, lk: Link)
    requires NewLinksDistinct(a, db) && db.nextLink !in db.links
    requires forall l :: l in db.links ==> !(db.links[l].url == lk.url && db.links[l].widget == lk.widget)
    ensures NewLinksDistinct(a, db.(links := db.links[db.nextLink := lk]))
  {
    var r := db.links[db.nextLink := lk];
    forall l, m | l in r && m in r && l != m && l !in a.links
      ensures r[l].url != r[m].url || r[l].widget != r[m].widget
    {
      if l != db.nextLink && m != db.nextLink {
        assert r[l] == db.links[l] && r[m] == db.links[m];
      }
    }
  }

  lemma ImportLinkGrows(a: Db, db: Db, w: Id, d: LinkData, order: int)
    requires Grown(a, db) && w in db.widgets
    ensures Grown(a, ImportLink(db, w, d, order))
  {
    if FindLink(db, d[1], w).None? {
      assert LinkMatches(db, d[1], w) == {};
      forall l | l in db.links ensures !(db.links[l].url == Some(d[1]) && db.links[l].widget == w) {
        assert l !in LinkMatches(db, d[1], w);
      }
      InsertLinkGrows(a, db, NewLink(d, w, order));
    }
  }

  /** Links are imported into the link table only. */
  lemma {:induction false} ImportLinksFrame(db: Db, w: Id, ds: seq<LinkData>)
    ensures var r := ImportLinks(db, w, ds);
      r.pages == db.pages && r.widgets == db.widgets && r.nextPage == db.nextPage && r.nextWidget == db.nextWidget
    decreases |ds|
  {
    if |ds| > 0 { ImportLinksFrame(db, w, ds[..|ds| - 1]); }
  }

  lemma {:induction false} ImportLinksGrows(a: Db, db: Db, w: Id, ds: seq<LinkData>)
    requires Grown(a, db) && w in db.widgets
    ensures Grown(a, ImportLinks(db, w, ds))
    decreases |ds|
  {
    if |ds| > 0 {
      var init := ds[..|ds| - 1];
      ImportLinksGrows(a, db, w, init);
      ImportLinksFrame(db, w, init);
      ImportLinkGrows(a, ImportLinks(db, w, init), w, ds[|ds| - 1], |ds| - 1);
    }
  }

  lemma GetOrCreateWidgetGrows(a: Db, db: Db, p: Id, title: string, order: int)
    requires Grown(a, db) && p in db.pages
    ensures var (r, w) := GetOrCreateWidget(db, p, title, order);
      && Grown(a, r) && w in r.widgets && r.widgets[w].page == p
      && r.pages == db.pages && r.nextPage == db.nextPage
      && FindWidget(r, title, p) == Some(w)
  {
    if FindWidget(db, title, p).None? {
      var (r, w) := GetOrCreateWidget(db, p, title, order);
      assert WidgetMatches(db, title, p) == {};
      forall x | x in db.widgets ensures !(db.widgets[x].title == title && db.widgets[x].page == p) {
        assert x !in WidgetMatches(db, title, p);
      }
      assert WidgetMatches(r, title, p) == {w};
      InsertWidgetGrows(a, db, NewWidget(title, p, order));
    }
  }

  /** Inserting a widget of an existing page under the next id. */
  lemma InsertWidgetGrows(a: Db, db: Db, wg: Widget)
    requires Grown(a, db) && wg.page in db.pages
    ensures Grown(a, db.(widgets := db.widgets[db.nextWidget := wg], nextWidget := db.nextWidget + 1))
  {
    var r := db.(widgets := db.widgets[db.nextWidget := wg], nextWidget := db.nextWidget + 1);
    InsertWidgetValid(db, wg);
    InsertWidgetExtends(db, wg);
    ExtendsTrans(a, db, r);
    assert r.links == db.links;
  }

  lemma InsertWidgetValid(db: Db, wg: Widget)
    requires Valid(db) && wg.page in db.pages
    ensures Valid(db.(widgets := db.widgets[db.nextWidget := wg], nextWidget := db.nextWidget + 1))
  {
  }

  lemma InsertWidgetExtends(db: Db, wg: Widget)
    requires db.nextWidget !in db.widgets
    ensures Extends(db, db.(widgets := db.widgets[db.nextWidget := wg], nextWidget := db.nextWidget + 1))
  {
  }

  lemma ImportWidgetGrows(a: Db, db: Db, p: Id, wd: WidgetData, order: int)
    requires Grown(a, db) && p in db.pages
    ensures var r := ImportWidget(db, p, wd, order);
      Grown(a, r) && r.pages == db.pages && r.nextPage == db.nextPage
  {
    var (db1, w) := GetOrCreateWidget(db, p, wd.title, order);
    GetOrCreateWidgetGrows(a, db, p, wd.title, order);
    ImportLinksGrows(a, db1, w, wd.links);
    ImportLinksFrame(db1, w, wd.links);
  }

  lemma {:induction false} ImportWidgetsGrows(a: Db, db: Db, p: Id, wds: seq<WidgetData>)
    requires Grown(a, db) && p in db.pages
    ensures var r := ImportWidgets(db, p, wds);
      Grown(a, r) && r.pages == db.pages && r.nextPage == db.nextPage
    decreases |wds|
  {
    if |wds| > 0 {
      var init := wds[..|wds| - 1];
      ImportWidgetsGrows(a, db, p, init);
      ImportWidgetGrows(a, ImportWidgets(db, p, init), p, wds[|wds| - 1], |wds| - 1);
    }
  }

  lemma GetOrCreatePageGrows(a: Db, db: Db, slug: string, name: string)
    requires Grown(a, db)
    ensures var (r, p) := GetOrCreatePage(db, slug, name);
      && Grown(a, r) && p in r.pages && r.pages[p].slug == slug
      && FindPage(r, slug) == Some(p)
  {
    if FindPage(db, slug).None? {
      var (r, p) := GetOrCreatePage(db, slug, name);
      assert PageMatches(db, slug) == {};
      forall q | q in db.pages ensures db.pages[q].slug != slug {
        assert q !in PageMatches(db, slug);
      }
      assert PageMatches(r, slug) == {p};
      InsertPageGrows(a, db, Page(name, slug, DefaultOrder));
    }
  }

  /** Inserting under the next id a page whose slug no page has. */
  lemma InsertPageGrows(a: Db, db: Db, pg: Page)
    requires Grown(a, db)
    requires forall q :: q in db.pages ==> db.pages[q].slug != pg.slug
    ensures Grown(a, db.(pages := db.pages[db.nextPage := pg], nextPage := db.nextPage + 1))
  {
    var r := db.(pages := db.pages[db.nextPage := pg], nextPage := db.nextPage + 1);
    InsertPageValid(db, pg);
    InsertPageExtends(db, pg);
    ExtendsTrans(a, db, r);
    assert r.links == db.links;
  }

  lemma InsertPageValid(db: Db, pg: Page)
    requires Valid(db)
    requires forall q :: q in db.pages ==> db.pages[q].slug != pg.slug
    ensures Valid(db.(pages := db.pages[db.nextPage := pg], nextPage := db.nextPage + 1))
  {
  }

  lemma InsertPageExtends(db: Db, pg: Page)
    requires db.nextPage !in db.pages
    ensures Extends(db, db.(pages := db.pages[db.nextPage := pg], nextPage := db.nextPage + 1))
  {
  }

  lemma ImportPageGrows(slugify: string -> string, a: Db, db: Db, pd: PageData)
    requires Grown(a, db)
    ensures Grown(a, ImportPage(slugify, db, pd))
  {
    var (db1, p) := GetOrCreatePage(db, slugify(pd.name), pd.name);
    GetOrCreatePageGrows(a, db, slugify(pd.name), pd.name);
    ImportWidgetsGrows(a, db1, p, pd.widgets);
  }

  lemma {:induction false} ImportAllGrows(slugify: string -> string, a: Db, db: Db, data: seq<PageData>)
    requires Grown(a, db)
    ensures Grown(a, ImportAll(slugify, db, data))
    decreases |data|
  {
    if |data| > 0 {
      ImportAllGrows(slugify, a, db, data[..|data| - 1]);
      ImportPageGrows(slugify, a, ImportAll(slugify, db, data[..|data| - 1]), data[|data| - 1]);
    }
  }

  /** The import keeps the store valid (unique slugs, no orphans), never
      changes or removes a row that was there (an existing page keeps its
      name, an existing widget or link its order), and every link it adds
      is the only one with its url in its widget. */
  lemma ImportOnlyInserts(slugify: string -> string, db: Db, data: seq<PageData>)
    requires Valid(db)
    ensures var r := ImportAll(slugify, db, data);
      Valid(r) && Extends(db, r) && NewLinksDistinct(db, r)
  {
    GrownRefl(db);
    ImportAllGrows(slugify, db, db, data);
  }

  // ---------------------------------------------------------------------
  // Re-running the import on the same data changes nothing.

  ghost predicate CoversLinks(db: Db, w: Id, ds: seq<LinkData>)
  {
    forall k :: 0 <= k < |ds| ==> FindLink(db, ds[k][1], w).Some?
  }

  ghost predicate CoversWidget(db: Db, p: Id, wd: WidgetData)
  {
    FindWidget(db, wd.title, p).Some? && CoversLinks(db, FindWidget(db, wd.title, p).value, wd.links)
  }

  ghost predicate CoversWidgets(db: Db, p: Id, wds: seq<WidgetData>)
  {
    forall j :: 0 <= j < |wds| ==> CoversWidget(db, p, wds[j])
  }

  ghost predicate CoversPage(slugify: string -> string, db: Db, pd: PageData)
  {
    FindPage(db, slugify(pd.name)).Some? && CoversWidgets(db, FindPage(db, slugify(pd.name)).value, pd.widgets)
  }

  /** Every row the import would look up is already there. */
  ghost predicate Covers(slugify: string -> string, db: Db, data: seq<PageData>)
  {
    forall i :: 0 <= i < |data| ==> CoversPage(slugify, db, data[i])
  }

  lemma {:induction false} CoveredLinksUnchanged(db: Db, w: Id, ds: seq<LinkData>)
    requires CoversLinks(db, w, ds)
    ensures ImportLinks(db, w, ds) == db
    decreases |ds|
  {
    if |ds| > 0 {
      var init := ds[..|ds| - 1];
      assert CoversLinks(db, w, init) by {
        forall k | 0 <= k < |init| ensures FindLink(db, init[k][1], w).Some? {
          assert init[k] == ds[k];
        }
      }
      CoveredLinksUnchanged(db, w, init);
    }
  }

  lemma {:induction false} CoveredWidgetsUnchanged(db: Db, p: Id, wds: seq<WidgetData>)
    requires CoversWidgets(db, p, wds)
    ensures ImportWidgets(db, p, wds) == db
    decreases |wds|
  {
    if |wds| > 0 {
      var init := wds[..|wds| - 1];
      assert CoversWidgets(db, p, init) by {
        forall j | 0 <= j < |init| ensures CoversWidget(db, p, init[j]) {
          assert init[j] == wds[j];
        }
      }
      CoveredWidgetsUnchanged(db, p, init);
      var wd := wds[|wds| - 1];
      assert CoversWidget(db, p, wd);
      CoveredLinksUnchanged(db, FindWidget(db, wd.title, p).value, wd.links);
    }
  }

  /** An import whose every row is already present is a no-op. */
  lemma {:induction false} CoveredImportUnchanged(slugify: string -> string, db: Db, data: seq<PageData>)
    requires Covers(slugify, db, data)
    ensures ImportAll(slugify, db, data) == db
    decreases |data|
  {
    if |data| > 0 {
      var init := data[..|data| - 1];
      assert Covers(slugify, db, init) by {
        forall i | 0 <= i < |init| ensures CoversPage(slugify, db, init[i]) {
          assert init[i] == data[i];
        }
      }
      CoveredImportUnchanged(slugify, db, init);
      var pd := data[|data| - 1];
      assert CoversPage(slugify, db, pd);
      CoveredWidgetsUnchanged(db, FindPage(db, slugify(pd.name)).value, pd.widgets);
    }
  }

  /** A lookup that succeeds keeps its answer when rows are added under
      fresh ids. */
  lemma FindLinkStable(a: Db, b: Db, url: string, w: Id)
    requires FreshCounters(a) && Extends(a, b) && FindLink(a, url, w).Some?
    ensures FindLink(b, url, w) == FindLink(a, url, w)
  {
    var x := FindLink(a, url, w).value;
    var s := LinkMatches(b, url, w);
    assert x in s;
    forall l | l in s ensures x <= l {
      if l in a.links { assert l in LinkMatches(a, url, w); }
    }
  }

  lemma FindWidgetStable(a: Db, b: Db, title: string, p: Id)
    requires FreshCounters(a) && Extends(a, b) && FindWidget(a, title, p).Some?
    ensures FindWidget(b, title, p) == FindWidget(a, title, p)
  {
    var x := FindWidget(a, title, p).value;
    var s := WidgetMatches(b, title, p);
    assert x in s;
    forall v | v in s ensures x <= v {
      if v in a.widgets { assert v in WidgetMatches(a, title, p); }
    }
  }

  lemma FindPageStable(a: Db, b: Db, slug: string)
    requires FreshCounters(a) && Extends(a, b) && FindPage(a, slug).Some?
    ensures FindPage(b, slug) == FindPage(a, slug)
  {
    var x := FindPage(a, slug).value;
    var s := PageMatches(b, slug);
    assert x in s;
    forall q | q in s ensures x <= q {
      if q in a.pages { assert q in PageMatches(a, slug); }
    }
  }

  lemma CoversLinksStable(a: Db, b: Db, w: Id, ds: seq<LinkData>)
    requires FreshCounters(a) && Extends(a, b) && CoversLinks(a, w, ds)
    ensures CoversLinks(b, w, ds)
  {
    forall k | 0 <= k < |ds| ensures FindLink(b, ds[k][1], w).Some? {
      FindLinkStable(a, b, ds[k][1], w);
    }
  }

  lemma CoversWidgetStable(a: Db, b: Db, p: Id, wd: WidgetData)
    requires FreshCounters(a) && Extends(a, b) && CoversWidget(a, p, wd)
    ensures CoversWidget(b, p, wd)
  {
    FindWidgetStable(a, b, wd.title, p);
    CoversLinksStable(a, b, FindWidget(a, wd.title, p).value, wd.links);
  }

  lemma CoversWidgetsStable(a: Db, b: Db, p: Id, wds: seq<WidgetData>)
    requires FreshCounters(a) && Extends(a, b) && CoversWidgets(a, p, wds)
    ensures CoversWidgets(b, p, wds)
  {
    forall j | 0 <= j < |wds| ensures CoversWidget(b, p, wds[j]) {
      CoversWidgetStable(a, b, p, wds[j]);
    }
  }

  lemma CoversPageStable(slugify: string -> string, a: Db, b: Db, pd: PageData)
    requires FreshCounters(a) && Extends(a, b) && CoversPage(slugify, a, pd)
    ensures CoversPage(slugify, b, pd)
  {
    FindPageStable(a, b, slugify(pd.name));
    CoversWidgetsStable(a, b, FindPage(a, slugify(pd.name)).value, pd.widgets);
  }

  lemma ImportLinkCovers(db: Db, w: Id, d: LinkData, order: int, ds: seq<LinkData>)
    requires Valid(db) && w in db.widgets && CoversLinks(db, w, ds)
    ensures CoversLinks(ImportLink(db, w, d, order), w, ds + [d])
  {
    var r := ImportLink(db, w, d, order);
    GrownRefl(db);
    ImportLinkGrows(db, db, w, d, order);
    CoversLinksStable(db, r, w, ds);
    assert FindLink(r, d[1], w).Some? by {
      if FindLink(db, d[1], w).None? {
        assert db.nextLink in LinkMatches(r, d[1], w);
      }
    }
  }

  lemma {:induction false} ImportLinksCovers(db: Db, w: Id, ds: seq<LinkData>)
    requires Valid(db) && w in db.widgets
    ensures CoversLinks(ImportLinks(db, w, ds), w, ds)
    decreases |ds|
  {
    if |ds| > 0 {
      var init := ds[..|ds| - 1];
      var mid := ImportLinks(db, w, init);
      ImportLinksCovers(db, w, init);
      assert Valid(mid) && w in mid.widgets by {
        GrownRefl(db);
        ImportLinksGrows(db, db, w, init);
        ImportLinksFrame(db, w, init);
      }
      ImportLinkCovers(mid, w, ds[|ds| - 1], |ds| - 1, init);
      assert init + [ds[|ds| - 1]] == ds;
    }
  }

  lemma ImportWidgetCovers(db: Db, p: Id, wd: WidgetData, order: int)
    requires Valid(db) && p in db.pages
    ensures CoversWidget(ImportWidget(db, p, wd, order), p, wd)
  {
    GrownRefl(db);
    var (db1, w) := GetOrCreateWidget(db, p, wd.title, order);
    GetOrCreateWidgetGrows(db, db, p, wd.title, order);
    var r := ImportLinks(db1, w, wd.links);
    ImportLinksCovers(db1, w, wd.links);
    GrownRefl(db1);
    ImportLinksGrows(db1, db1, w, wd.links);
    FindWidgetStable(db1, r, wd.title, p);
  }

  lemma ImportWidgetCoversStep(db: Db, p: Id, wd: WidgetData, order: int, wds: seq<WidgetData>)
    requires Valid(db) && p in db.pages && CoversWidgets(db, p, wds)
    ensures CoversWidgets(ImportWidget(db, p, wd, order), p, wds + [wd])
  {
    var r := ImportWidget(db, p, wd, order);
    GrownRefl(db);
    ImportWidgetGrows(db, db, p, wd, order);
    ImportWidgetCovers(db, p, wd, order);
    CoversWidgetsStable(db, r, p, wds);
  }

  lemma {:induction false} ImportWidgetsCovers(db: Db, p: Id, wds: seq<WidgetData>)
    requires Valid(db) && p in db.pages
    ensures CoversWidgets(ImportWidgets(db, p, wds), p, wds)
    decreases |wds|
  {
    if |wds| > 0 {
      var init := wds[..|wds| - 1];
      ImportWidgetsCovers(db, p, init);
      assert Valid(ImportWidgets(db, p, init)) && p in ImportWidgets(db, p, init).pages by {
        GrownRefl(db);
        ImportWidgetsGrows(db, db, p, init);
      }
      ImportWidgetCoversStep(ImportWidgets(db, p, init), p, wds[|wds| - 1], |wds| - 1, init);
      assert init + [wds[|wds| - 1]] == wds;
    }
  }

  lemma ImportPageCovers(slugify: string -> string, db: Db, pd: PageData)
    requires Valid(db)
    ensures CoversPage(slugify, ImportPage(slugify, db, pd), pd)
  {
    GrownRefl(db);
    var (db1, p) := GetOrCreatePage(db, slugify(pd.name), pd.name);
    GetOrCreatePageGrows(db, db, slugify(pd.name), pd.name);
    var r := ImportWidgets(db1, p, pd.widgets);
    ImportWidgetsCovers(db1, p, pd.widgets);
    GrownRefl(db1);
    ImportWidgetsGrows(db1, db1, p, pd.widgets);
    FindPageStable(db1, r, slugify(pd.name));
  }

  lemma {:induction false} ImportAllCovers(slugify: string -> string, db: Db, data: seq<PageData>)
    requires Valid(db)
    ensures Covers(slugify, ImportAll(slugify, db, data), data)
    decreases |data|
  {
    if |data| > 0 {
      var init := data[..|data| - 1];
      var mid := ImportAll(slugify, db, init);
      ImportAllCovers(slugify, db, init);
      GrownRefl(db);
      ImportAllGrows(slugify, db, db, init);
      GrownRefl(mid);
      var last := data[|data| - 1];
      var r := ImportPage(slugify, mid, last);
      ImportPageGrows(slugify, mid, mid, last);
      ImportPageCovers(slugify, mid, last);
      forall i | 0 <= i < |data| ensures CoversPage(slugify, r, data[i]) {
        if i < |data| - 1 {
          assert data[i] == init[i];
          CoversPageStable(slugify, mid, r, init[i]);
        }
      }
    }
  }

  /** Running the import a second time on the same data creates nothing. */
  lemma ImportTwiceSameAsOnce(slugify: string -> string, db: Db, data: seq<PageData>)
    requires Valid(db)
    ensures ImportAll(slugify, ImportAll(slugify, db, data), data) == ImportAll(slugify, db, data)
  {
    ImportAllCovers(slugify, db, data);
    CoveredImportUnchanged(slugify, ImportAll(slugify, db, data), data);
  }

  // ---------------------------------------------------------------------
  // What the added rows hold.

  /** A link added for widget `w` is entry `k` of the list with `order` `k`:
      the counter counts every entry, also those whose link already
      existed. */
  lemma {:induction false} ImportLinksNewRows(db: Db, w: Id, ds: seq<LinkData>)
    requires FreshCounters(db)
    ensures var r := ImportLinks(db, w, ds);
      && db.nextLink <= r.nextLink
      && (forall l :: l in db.links ==> l in r.links && r.links[l] == db.links[l])
      && (forall l :: l in r.links && l !in db.links ==> db.nextLink <= l < r.nextLink)
      && forall l :: l in r.links && l !in db.links ==>
           exists k :: 0 <= k < |ds| && r.links[l] == NewLink(ds[k], w, k)
    decreases |ds|
  {
    if |ds| > 0 {
      var init := ds[..|ds| - 1];
      ImportLinksNewRows(db, w, init);
      var mid := ImportLinks(db, w, init);
      assert mid.nextLink !in mid.links;
      var r := ImportLinks(db, w, ds);
      forall l | l in r.links && l !in db.links
        ensures exists k :: 0 <= k < |ds| && r.links[l] == NewLink(ds[k], w, k)
      {
        if l in mid.links {
          var k :| 0 <= k < |init| && mid.links[l] == NewLink(init[k], w, k);
          assert init[k] == ds[k];
        } else {
          assert r.links[l] == NewLink(ds[|ds| - 1], w, |ds| - 1);
        }
      }
    }
  }

  /** A widget added for page `p` is entry `j` of the page's widget
      mapping, created as a list widget with `order` `j`. */
  lemma {:induction false} ImportWidgetsNewRows(db: Db, p: Id, wds: seq<WidgetData>)
    requires FreshCounters(db)
    ensures var r := ImportWidgets(db, p, wds);
      && db.nextWidget <= r.nextWidget
      && (forall x :: x in db.widgets ==> x in r.widgets && r.widgets[x] == db.widgets[x])
      && (forall x :: x in r.widgets && x !in db.widgets ==> db.nextWidget <= x < r.nextWidget)
      && forall x :: x in r.widgets && x !in db.widgets ==>
           exists j :: 0 <= j < |wds| && r.widgets[x] == NewWidget(wds[j].title, p, j)
    decreases |wds|
  {
    if |wds| > 0 {
      var init := wds[..|wds| - 1];
      ImportWidgetsNewRows(db, p, init);
      var mid := ImportWidgets(db, p, init);
      assert mid.nextWidget !in mid.widgets;
      var last := wds[|wds| - 1];
      var (db1, w) := GetOrCreateWidget(mid, p, last.title, |wds| - 1);
      ImportLinksFrame(db1, w, last.links);
      var r := ImportWidgets(db, p, wds);
      assert r.widgets == db1.widgets && r.nextWidget == db1.nextWidget;
      forall x | x in r.widgets && x !in db.widgets
        ensures exists j :: 0 <= j < |wds| && r.widgets[x] == NewWidget(wds[j].title, p, j)
      {
        if x in mid.widgets {
          var j :| 0 <= j < |init| && mid.widgets[x] == NewWidget(init[j].title, p, j);
          assert init[j] == wds[j];
        } else {
          assert r.widgets[x] == NewWidget(last.title, p, |wds| - 1);
        }
      }
    }
  }

  /** Widgets (with their links) are imported below the page table only. */
  lemma {:induction false} ImportWidgetsFrame(db: Db, p: Id, wds: seq<WidgetData>)
    ensures var r := ImportWidgets(db, p, wds);
      r.pages == db.pages && r.nextPage == db.nextPage
    decreases |wds|
  {
    if |wds| > 0 {
      var init := wds[..|wds| - 1];
      ImportWidgetsFrame(db, p, init);
      var mid := ImportWidgets(db, p, init);
      var (db1, w) := GetOrCreateWidget(mid, p, wds[|wds| - 1].title, |wds| - 1);
      ImportLinksFrame(db1, w, wds[|wds| - 1].links);
    }
  }

  /** A page added by the import carries the name it was imported under,
      the slug `slugify(name)` and the default `order`. */
  lemma {:induction false} ImportAllNewPages(slugify: string -> string, db: Db, data: seq<PageData>)
    requires FreshCounters(db)
    ensures var r := ImportAll(slugify, db, data);
      && db.nextPage <= r.nextPage
      && (forall q :: q in db.pages ==> q in r.pages && r.pages[q] == db.pages[q])
      && (forall q :: q in r.pages && q !in db.pages ==> db.nextPage <= q < r.nextPage)
      && forall q :: q in r.pages && q !in db.pages ==>
           exists i :: 0 <= i < |data| && r.pages[q] == Page(data[i].name, slugify(data[i].name), DefaultOrder)
    decreases |data|
  {
    if |data| > 0 {
      var init := data[..|data| - 1];
      ImportAllNewPages(slugify, db, init);
      var mid := ImportAll(slugify, db, init);
      assert mid.nextPage !in mid.pages;
      var last := data[|data| - 1];
      var (db1, p) := GetOrCreatePage(mid, slugify(last.name), last.name);
      ImportWidgetsFrame(db1, p, last.widgets);
      var r := ImportAll(slugify, db, data);
      assert r.pages == db1.pages && r.nextPage == db1.nextPage;
      forall q | q in r.pages && q !in db.pages
        ensures exists i :: 0 <= i < |data| && r.pages[q] == Page(data[i].name, slugify(data[i].name), DefaultOrder)
      {
        if q in mid.pages {
          var i :| 0 <= i < |init| && mid.pages[q] == Page(init[i].name, slugify(init[i].name), DefaultOrder);
          assert init[i] == data[i];
        } else {
          assert r.pages[q] == Page(last.name, slugify(last.name), DefaultOrder);
        }
      }
    }
  }

  // ---------------------------------------------------------------------
  // `Command.handle` after the JSON file has been read, inserting into the
  // store in place. Its three nested loops are the three methods below.

  /** The innermost loop: `get_or_create` of each link entry of one widget,
      with the running `link_order` counter. */
  method ImportLinksInto(d: Dashboard, widget: Id, linksList: seq<LinkData>)
    modifies d
    ensures d.State() == ImportLinks(old(d.State()), widget, linksList)
  {
    var linkOrder := 0;
    for k := 0 to |linksList|
      invariant linkOrder == k
      invariant d.State() == ImportLinks(old(d.State()), widget, linksList[..k])
    {
      var linkData := linksList[k];
      var title := linkData[0];
      var url := linkData[1];
      var icon := if |linkData| > 2 then linkData[2] else "";
      if FindLink(d.State(), url, widget).None? {
        d.links := d.links[d.nextLink := Link(title, Some(url), Some(icon), widget, linkOrder)];
        d.nextLink := d.nextLink + 1;
      }
      linkOrder := linkOrder + 1;
      assert linksList[..k + 1][..k] == linksList[..k];
    }
    assert linksList[..|linksList|] == linksList;
  }

  /** The middle loop: `get_or_create` of each widget of one page, with the
      running `widget_order` counter, then its links. */
  method ImportWidgetsInto(d: Dashboard, page: Id, widgetsData: seq<WidgetData>)
    modifies d
    ensures d.State() == ImportWidgets(old(d.State()), page, widgetsData)
  {
    var widgetOrder := 0;
    for j := 0 to |widgetsData|
      invariant widgetOrder == j
      invariant d.State() == ImportWidgets(old(d.State()), page, widgetsData[..j])
    {
      var widgetTitle := widgetsData[j].title;
      ghost var before := d.State();
      var widget: Id;
      var found := FindWidget(d.State(), widgetTitle, page);
      if found.Some? {
        widget := found.value;
      } else {
        widget := d.nextWidget;
        d.widgets := d.widgets[widget := NewWidget(widgetTitle, page, widgetOrder)];
        d.nextWidget := d.nextWidget + 1;
      }
      assert (d.State(), widget) == GetOrCreateWidget(before, page, widgetTitle, j);
      widgetOrder := widgetOrder + 1;
      ImportLinksInto(d, widget, widgetsData[j].links);
      assert widgetsData[..j + 1][..j] == widgetsData[..j];
    }
    assert widgetsData[..|widgetsData|] == widgetsData;
  }

  /** `Page.objects.get_or_create(slug=slug, defaults={"name": name})`. */
  method GetOrCreatePageIn(d: Dashboard, slug: string, name: string) returns (page: Id)
    modifies d
    ensures (d.State(), page) == GetOrCreatePage(old(d.State()), slug, name)
  {
    var found := FindPage(d.State(), slug);
    if found.Some? {
      page := found.value;
    } else {
      page := d.nextPage;
      d.pages := d.pages[page := Page(name, slug, DefaultOrder)];
      d.nextPage := d.nextPage + 1;
    }
  }

  /** The outer loop: `get_or_create` of each page by the slug of its name,
      then its widgets. The store stays valid. */
  method Handle(d: Dashboard, data: seq<PageData>)
    requires d.Valid()
    modifies d
    ensures d.Valid()
    ensures d.State() == ImportAll(d.slugify, old(d.State()), data)
  {
    for i := 0 to |data|
      invariant d.State() == ImportAll(d.slugify, old(d.State()), data[..i])
    {
      var pageName := data[i].name;
      var page := GetOrCreatePageIn(d, d.slugify(pageName), pageName);
      ImportWidgetsInto(d, page, data[i].widgets);
      assert data[..i + 1][..i] == data[..i];
    }
    assert data[..|data|] == data;
    ImportOnlyInserts(d.slugify, old(d.State()), data);
  }
}
