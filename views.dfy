/** The views of dashboard/views.py as operations on the store. Each view
    loads its rows (`get_object_or_404`), assigns fields and saves; the HTTP
    response collapses to an `Outcome`. */
module Views {
  import opened Models
  import opened Ordering
  import opened Slugs
  import opened Reorder

  /** `Ok` is status 200 or the redirect a view ends with; `NotFound` is the
      404 of `get_object_or_404`; `BadRequest` is the explicit 400 of
      `move_link_to_page`; `ConstraintViolation` is a save the database
      refuses (a duplicate slug, a null title), which leaves the row as it was. */
  datatype Outcome = Ok | NotFound | BadRequest | ConstraintViolation

  /** The `order` given to a row appended by a view, so that it is listed
      last. */
  const AppendOrder: int := 999

  /** A row appended with `AppendOrder` among siblings whose orders are all
      below it is listed after all of them. */
  lemma AppendedListedLast(m: map<Id, int>, x: Id)
    requires x !in m
    requires forall y :: y in m ==> m[y] < AppendOrder
    ensures Listing(m[x := AppendOrder]) == Listing(m) + [x]
  {
    ListingInOrder(m);
    AppendInOrder(m, x, Listing(m));
    ListingCharacterized(m[x := AppendOrder], Listing(m) + [x]);
  }

  lemma AppendInOrder(m: map<Id, int>, x: Id, t: seq<Id>)
    requires x !in m && ListsInOrder(m, t)
    requires forall y :: y in m ==> m[y] < AppendOrder
    ensures ListsInOrder(m[x := AppendOrder], t + [x])
  {
    var m' := m[x := AppendOrder];
    var s := t + [x];
    forall y ensures y in s <==> y in m' {
      assert y in s <==> y in t || y == x;
    }
    forall i, j | 0 <= i < j < |s| ensures s[i] in m' && s[j] in m' && Precedes(m', s[i], s[j]) {
      assert s[i] == t[i] && t[i] in m;
      if j < |s| - 1 {
        assert s[j] == t[j] && t[j] in m;
        assert Precedes(m, t[i], t[j]);
      } else {
        assert s[j] == x;
      }
    }
  }

  /** A form field as `request.POST.get` returns it is used only when
      present and non-empty. */
  predicate Given(v: Option<string>)
  {
    v.Some? && v.value != ""
  }

  class Dashboard {
    var pages: map<Id, Page>
    var widgets: map<Id, Widget>
    var links: map<Id, Link>
    var nextPage: Id
    var nextWidget: Id
    var nextLink: Id

    /** Django's `slugify`, which this model does not look inside. */
    const slugify: string -> string

    function State(): Db
      reads this
    {
      Db(pages, widgets, links, nextPage, nextWidget, nextLink)
    }

    ghost predicate Valid()
      reads this
    {
      Models.Valid(State())
    }

    /** An empty database; auto-increment ids start at 1. */
    constructor (slugify: string -> string)
      ensures Valid()
      ensures this.slugify == slugify
      ensures State() == Db(map[], map[], map[], 1, 1, 1)
    {
      pages, widgets, links := map[], map[], map[];
      nextPage, nextWidget, nextLink := 1, 1, 1;
      this.slugify := slugify;
    }

    /** The slugs of all pages (`Page.objects.filter(slug=s).exists()` is
        `s in UsedSlugs()`). */
    function UsedSlugs(): set<string>
      reads this
    {
      set p | p in pages :: pages[p].slug
    }

    /** `update_link_order`: move and renumber links from the posted list. */
    method UpdateLinkOrder(widgetId: Option<Id>, ids: seq<Id>) returns (r: Outcome)
      requires Valid()
      modifies this
      ensures Valid()
      ensures widgetId.None? ==> r == Ok && State() == old(State())
      ensures widgetId.Some? && widgetId.value !in old(widgets) ==> r == NotFound && State() == old(State())
      ensures widgetId.Some? && widgetId.value in old(widgets) ==>
        r == Ok && State() == old(State()).(links := ReorderLinks(old(links), widgetId.value, ids))
    {
      r := Ok;
      if widgetId.Some? {
        var w := widgetId.value;
        if w !in widgets {
          return NotFound;
        }
        var i := 0;
        while i < |ids|
          invariant 0 <= i <= |ids|
          invariant Valid()
          invariant State() == old(State()).(links := ReorderLinks(old(links), w, ids[..i]))
        {
          var x := ids[i];
          if x in links {
            links := links[x := links[x].(widget := w, order := i)];
          }
          assert ids[..i + 1][..i] == ids[..i];
          i := i + 1;
        }
        assert ids[..|ids|] == ids;
      }
    }

    /** `update_widget_order`: renumber widgets from the posted list. */
    method UpdateWidgetOrder(ids: seq<Id>) returns (r: Outcome)
      requires Valid()
      modifies this
      ensures Valid()
      ensures r == Ok
      ensures State() == old(State()).(widgets := ReorderWidgets(old(widgets), ids))
    {
      var i := 0;
      while i < |ids|
        invariant 0 <= i <= |ids|
        invariant Valid()
        invariant State() == old(State()).(widgets := ReorderWidgets(old(widgets), ids[..i]))
      {
        var x := ids[i];
        if x in widgets {
          widgets := widgets[x := widgets[x].(order := i)];
        }
        assert ids[..i + 1][..i] == ids[..i];
        i := i + 1;
      }
      assert ids[..|ids|] == ids;
      r := Ok;
    }

    /** `move_link_to_page`: put the link into the first widget of the
        target page, keeping its `order`. */
    method MoveLinkToPage(linkId: Id, targetPageId: Option<Id>) returns (r: Outcome)
      requires Valid()
      modifies this
      ensures Valid()
      ensures r in {Ok, NotFound, BadRequest}
      ensures r == NotFound <==>
        linkId !in old(links) || targetPageId.None? || targetPageId.value !in old(pages)
      ensures r == BadRequest <==>
        linkId in old(links) && targetPageId.Some? && targetPageId.value in old(pages) &&
        WidgetsOf(old(State()), targetPageId.value) == {}
      ensures r != Ok ==> State() == old(State())
      ensures r == Ok ==>
        && linkId in old(links) && targetPageId.Some?
        && First(WidgetOrders(old(State()), targetPageId.value)).Some?
        && var w := First(WidgetOrders(old(State()), targetPageId.value)).value;
        && State() == old(State()).(links := old(links)[linkId := old(links)[linkId].(widget := w)])
        && links[linkId].order == old(links)[linkId].order
    {
      if linkId !in links {
        return NotFound;
      }
      if targetPageId.None? || targetPageId.value !in pages {
        return NotFound;
      }
      var target := First(WidgetOrders(State(), targetPageId.value));
      if target.None? {
        return BadRequest;
      }
      links := links[linkId := links[linkId].(widget := target.value)];
      r := Ok;
    }

    /** `add_link`: append a link to the widget when both title and url
        are given. */
    method AddLink(widgetId: Id, title: Option<string>, url: Option<string>) returns (r: Outcome)
      requires Valid()
      modifies this
      ensures Valid()
      ensures r == (if widgetId in old(widgets) then Ok else NotFound)
      ensures r == Ok && Given(title) && Given(url) ==>
        State() == old(State()).(
          links := old(links)[old(nextLink) := Link(title.value, url, None, widgetId, AppendOrder)],
          nextLink := old(nextLink) + 1)
      ensures !(r == Ok && Given(title) && Given(url)) ==> State() == old(State())
    {
      if widgetId !in widgets {
        return NotFound;
      }
      if Given(title) && Given(url) {
        links := links[nextLink := Link(title.value, url, None, widgetId, AppendOrder)];
        nextLink := nextLink + 1;
      }
      r := Ok;
    }

    /** `delete_link`. */
    method DeleteLink(linkId: Id) returns (r: Outcome)
      requires Valid()
      modifies this
      ensures Valid()
      ensures r == (if linkId in old(links) then Ok else NotFound)
      ensures r == Ok ==> State() == old(State()).(links := old(links) - {linkId})
      ensures r == NotFound ==> State() == old(State())
    {
      if linkId !in links {
        return NotFound;
      }
      links := links - {linkId};
      r := Ok;
    }

    /** `create_page`: append a page whose slug is the first of
        `slugify(name)`, `slugify(name)-1`, ... that no page uses. Returns
        the slug of the new page, which the view redirects to. */
    method CreatePage(name: Option<string>) returns (slug: Option<string>)
      requires Valid()
      modifies this
      ensures Valid()
      ensures !Given(name) ==> slug == None && State() == old(State())
      ensures Given(name) ==>
        && slug.Some?
        && IsFirstFreeSlug(slugify(name.value), old(UsedSlugs()), slug.value)
        && State() == old(State()).(
             pages := old(pages)[old(nextPage) := Page(name.value, slug.value, AppendOrder)],
             nextPage := old(nextPage) + 1)
    {
      if !Given(name) {
        return None;
      }
      var base := slugify(name.value);
      var s := base;
      var counter := 1;
      ghost var used := UsedSlugs();
      while s in UsedSlugs()
        invariant State() == old(State())
        invariant 1 <= counter
        invariant s == Candidate(base, counter - 1)
        invariant forall j :: 0 <= j < counter - 1 ==> Candidate(base, j) in used
        invariant counter - 1 <= |used|
        decreases |used| - (counter - 1)
      {
        TakenCandidatesBound(base, counter, used);
        s := base + "-" + NatToString(counter);
        counter := counter + 1;
      }
      assert s == Candidate(base, counter - 1) && s !in used;
      assert IsFirstFreeSlug(base, used, s);
      pages := pages[nextPage := Page(name.value, s, AppendOrder)];
      nextPage := nextPage + 1;
      slug := Some(s);
    }

    /** `rename_page`: set the name and `slug = slugify(name)`. The view
        does not look for a collision; the unique constraint on `slug`
        refuses the save when another page already has that slug. */
    method RenamePage(pageId: Id, name: Option<string>) returns (r: Outcome)
      requires Valid()
      modifies this
      ensures Valid()
      ensures r in {Ok, NotFound, ConstraintViolation}
      ensures r == NotFound <==> pageId !in old(pages)
      ensures r == ConstraintViolation <==>
        pageId in old(pages) && Given(name) &&
        exists q :: q in old(pages) && q != pageId && old(pages)[q].slug == slugify(name.value)
      ensures r == Ok && Given(name) ==>
        State() == old(State()).(pages := old(pages)[pageId := Page(name.value, slugify(name.value), old(pages)[pageId].order)])
      ensures !(r == Ok && Given(name)) ==> State() == old(State())
    {
      if pageId !in pages {
        return NotFound;
      }
      if Given(name) {
        var s := slugify(name.value);
        if exists q :: q in pages && q != pageId && pages[q].slug == s {
          return ConstraintViolation;
        }
        pages := pages[pageId := pages[pageId].(name := name.value, slug := s)];
      }
      r := Ok;
    }

    /** `delete_page`, with its cascade. */
    method DeletePage(pageId: Id) returns (r: Outcome)
      requires Valid()
      modifies this
      ensures Valid()
      ensures r == (if pageId in old(pages) then Ok else NotFound)
      ensures r == Ok ==> State() == CascadeDeletePage(old(State()), pageId)
      ensures r == NotFound ==> State() == old(State())
    {
      if pageId !in pages {
        return NotFound;
      }
      var after := CascadeDeletePage(State(), pageId);
      pages, widgets, links := after.pages, after.widgets, after.links;
      r := Ok;
    }

    /** `move_widget_to_page`: when a target is posted, the widget goes to
        the end of that page, taking its links with it. */
    method MoveWidgetToPage(widgetId: Id, targetPageId: Option<Id>) returns (r: Outcome)
      requires Valid()
      modifies this
      ensures Valid()
      ensures r in {Ok, NotFound}
      ensures r == NotFound <==>
        widgetId !in old(widgets) || (targetPageId.Some? && targetPageId.value !in old(pages))
      ensures r == Ok && targetPageId.Some? ==>
        State() == old(State()).(widgets := old(widgets)[widgetId :=
          old(widgets)[widgetId].(page := targetPageId.value, order := AppendOrder)])
      ensures !(r == Ok && targetPageId.Some?) ==> State() == old(State())
    {
      if widgetId !in widgets {
        return NotFound;
      }
      if targetPageId.Some? {
        if targetPageId.value !in pages {
          return NotFound;
        }
        widgets := widgets[widgetId := widgets[widgetId].(page := targetPageId.value, order := AppendOrder)];
      }
      r := Ok;
    }

    /** `delete_widget`, with its cascade. */
    method DeleteWidget(widgetId: Id) returns (r: Outcome)
      requires Valid()
      modifies this
      ensures Valid()
      ensures r == (if widgetId in old(widgets) then Ok else NotFound)
      ensures r == Ok ==> State() == CascadeDeleteWidget(old(State()), widgetId)
      ensures r == NotFound ==> State() == old(State())
    {
      if widgetId !in widgets {
        return NotFound;
      }
      var after := CascadeDeleteWidget(State(), widgetId);
      widgets, links := after.widgets, after.links;
      r := Ok;
    }

    /** `add_widget`: append a list widget to the page when a title is given. */
    method AddWidget(pageId: Id, title: Option<string>) returns (r: Outcome)
      requires Valid()
      modifies this
      ensures Valid()
      ensures r == (if pageId in old(pages) then Ok else NotFound)
      ensures r == Ok && Given(title) ==>
        State() == old(State()).(
          widgets := old(widgets)[old(nextWidget) := NewWidget(title.value, pageId, AppendOrder)],
          nextWidget := old(nextWidget) + 1)
      ensures !(r == Ok && Given(title)) ==> State() == old(State())
    {
      if pageId !in pages {
        return NotFound;
      }
      if Given(title) {
        widgets := widgets[nextWidget := NewWidget(title.value, pageId, AppendOrder)];
        nextWidget := nextWidget + 1;
      }
      r := Ok;
    }

    /** `rename_widget` on POST: an empty or missing title is ignored. */
    method RenameWidget(widgetId: Id, title: Option<string>) returns (r: Outcome)
      requires Valid()
      modifies this
      ensures Valid()
      ensures r == (if widgetId in old(widgets) then Ok else NotFound)
      ensures r == Ok && Given(title) ==>
        State() == old(State()).(widgets := old(widgets)[widgetId := old(widgets)[widgetId].(title := title.value)])
      ensures !(r == Ok && Given(title)) ==> State() == old(State())
    {
      if widgetId !in widgets {
        return NotFound;
      }
      if Given(title) {
        widgets := widgets[widgetId := widgets[widgetId].(title := title.value)];
      }
      r := Ok;
    }

    /** `edit_link` on POST: both fields are overwritten with what was
        posted, even when empty. A missing url stores null; a missing title
        is refused by the NOT NULL `title` column. */
    method EditLink(linkId: Id, title: Option<string>, url: Option<string>) returns (r: Outcome)
      requires Valid()
      modifies this
      ensures Valid()
      ensures r in {Ok, NotFound, ConstraintViolation}
      ensures r == NotFound <==> linkId !in old(links)
      ensures r == ConstraintViolation <==> linkId in old(links) && title.None?
      ensures r == Ok ==>
        State() == old(State()).(links := old(links)[linkId := old(links)[linkId].(title := title.value, url := url)])
      ensures r != Ok ==> State() == old(State())
    {
      if linkId !in links {
        return NotFound;
      }
      if title.None? {
        return ConstraintViolation;
      }
      links := links[linkId := links[linkId].(title := title.value, url := url)];
      r := Ok;
    }
  }
}
