# Dashboard ordered-tree store, in Dafny

This project models the core of the `dashboard` Django application. That core is a store of
pages, their widgets and the widgets' links: three levels of a tree, each row
carrying an integer `order` by which its siblings are listed. Deleting a parent takes its
children with it. The model covers:

- the record shapes, defaults, choices, cascade rules, unique slug and sibling ordering
  of `dashboard/models.py` (module `Models`, with `Ordering` for `Meta.ordering` and `.first()`);
- the state-changing views of `dashboard/views.py`, as the methods of the class
  `Views.Dashboard` over three `map`s from id to row and the three auto-increment counters.
  The pure folds the reorder loops compute are in `Reorder`. The slug sequence `create_page`
  tries is in `Slugs`;
- the merge loop of the `import_json` management command
  (`dashboard/management/commands/import_json.py`), as the method `ImportJson.Handle` with
  its nested loops, proved equal to the pure fold `ImportJson.ImportAll`.

Every view method requires and preserves `Models.Valid`: slugs unique, no orphaned widget
or link, and ids below their counters. Each view states its whole new state and its outcome. It
returns `NotFound` for the 404 of `get_object_or_404` and `BadRequest` for an explicit 400. It
returns `ConstraintViolation` where the database would refuse the save.

Modelling choices:

- Django's `slugify` is a function value `Dashboard.slugify` that the model does not look inside.
- Form fields are `Option<string>`, and `Views.Given` is Python truthiness: present and non-empty.
- `Meta.ordering = ['order']` leaves rows with equal `order` in an unspecified order. The model
  breaks such ties by id, so that a listing and `.first()` are functions.
- Where `get_or_create` could match several rows, the model takes the lowest id.

Behaviour of the code worth noting:

- `create_page` gives the new page the constant order 999, not a value above every existing order.
- `add_link` creates nothing unless a url is posted too.
- `add_widget` takes no widget kind, so every new widget is a `list` widget.
- `rename_page` re-derives the slug without any collision loop. The unique constraint on
  `slug` then rejects a rename onto another page's slug, and the model reports that as
  `ConstraintViolation` with nothing changed.

## Model

| member | source | states |
|---|---|---|
| Models.ChoiceCode | dashboard/models.py:40-44 | each widget type's stored code is non-empty and fits the 10-character column |
| Models.ChoiceOf | dashboard/models.py:40-44 | a code maps to the type whose code it is, and to nothing when no choice has that code |
| Models.ChoiceCodeRoundTrip | dashboard/models.py:40-44 | reading back the stored code of a type gives that type |
| Models.CascadeDeleteWidget | dashboard/models.py:76 | deleting a widget removes it and exactly its links; pages, other rows, every value and the counters are unchanged; validity is kept |
| Models.CascadeDeletePage | dashboard/models.py:47 | deleting a page removes it, exactly its widgets and exactly their links, changes no other row and keeps validity |
| Models.NewWidget | dashboard/models.py:48-52 | definition of the row `Widget.objects.create(title=..., page=..., order=...)` writes: the `list` type and no content, the column defaults |
| Models.SlugsUnique | dashboard/models.py:15 | definition of the unique constraint on `slug`: no two pages have the same slug; every view method keeps it |
| Models.NoOrphans | dashboard/models.py:47-76 | definition of the two foreign keys: every widget's page and every link's widget exists; every view method and the import keep it |
| Models.Valid | dashboard/models.py:15-77 | definition of a consistent store: unique slugs, no orphans, and every id below its auto-increment counter |
| Models.CascadePageLeavesNoChildren | dashboard/models.py:47 | after a page is deleted it has no widgets left and its widgets have no links left |
| Models.CascadeWidgetLeavesNoLinks | dashboard/models.py:76 | after a widget is deleted it has no links left |
| Models.CascadeDeletePageByWidgets | dashboard/models.py:47 | deleting one of a page's widgets first and then the page leaves the same store as deleting the page |
| Ordering.PrecedesStrictTotal | dashboard/models.py:18-19 | listing siblings is a strict total order: never both ways, one way for any two distinct rows, and transitive |
| Ordering.Least | dashboard/models.py:18-19 | a non-empty sibling group has a row listed before every other |
| Ordering.First | dashboard/views.py:128 | `.first()` is empty exactly when there are no siblings, and otherwise a sibling with the lowest `order` |
| Ordering.Listing | dashboard/models.py:18-19 | definition of the listing of a sibling group (pages, a page's widgets, a widget's links are listed alike, models.py:54-55 and 79-80): its properties are stated by `ListingCharacterized` |
| Ordering.ListingCharacterized | dashboard/models.py:54-55 | the listing is the one duplicate-free sequence that has every sibling once and puts them in ascending `order` |
| Ordering.FirstIsHead | dashboard/views.py:128 | `.first()` is the head of the listing |
| Ordering.MinId | dashboard/management/commands/import_json.py:28-31 | the lowest id of a non-empty set is in it and below all its members |
| Ordering.PositionsListing | dashboard/views.py:64-73 | distinct rows numbered by their positions are listed in exactly that sequence |
| Slugs.NatToString | dashboard/views.py:199 | `str(counter)` is a non-empty string of decimal digits |
| Slugs.NatToStringInjective | dashboard/views.py:199 | different counters print differently |
| Slugs.Candidate | dashboard/views.py:193-199 | the k-th slug tried extends the base slug, and from the first suffix on it follows the base with a `-` |
| Slugs.CandidateInjective | dashboard/views.py:193-199 | different counters give different slugs |
| Slugs.TakenCandidatesBound | dashboard/views.py:198-200 | if the first n slugs tried are all taken then at least n slugs are in use, so the loop ends |
| Slugs.IsFirstFreeSlug | dashboard/views.py:198-200 | definition of the slug the loop of `create_page` settles on: a candidate not in use whose every earlier candidate is in use; `CreatePage` ensures its new slug satisfies it |
| Slugs.FirstFreeSlugUnique | dashboard/views.py:198-200 | there is only one first free slug in the sequence |
| Slugs.SameNameTwice | dashboard/views.py:193-203 | two pages created with the same name, with both slugs free, get `base` and `base-1` |
| Reorder.LastIndex | dashboard/views.py:64-73 | the index the loop writes for a repeated id is its last occurrence |
| Reorder.ReorderLinks | dashboard/views.py:64-75 | definition of the links after the enumerate loop of `update_link_order`, as a fold over the posted ids: its closed form is `ReorderLinksAt` |
| Reorder.ReorderLinksAt | dashboard/views.py:61-75 | every existing posted link moves to the target widget with its last index as order; unknown ids are skipped; other links and all other columns are unchanged |
| Reorder.ReorderLinksIdempotent | dashboard/views.py:64-75 | posting the same link list twice leaves the links as posting it once |
| Reorder.ReorderedLinksListing | dashboard/views.py:64-75 | when the posted ids are distinct, existing and include every link already in the widget, the widget then lists exactly them in posted order |
| Reorder.ReorderWidgets | dashboard/views.py:97-103 | definition of the widgets after the enumerate loop of `update_widget_order`: its closed form is `ReorderWidgetsAt` |
| Reorder.ReorderWidgetsAt | dashboard/views.py:97-103 | every existing posted widget gets its last index as order; unknown ids are skipped; other widgets are unchanged |
| Reorder.ReorderWidgetsKeepsPages | dashboard/views.py:97-103 | reordering never moves a widget to another page and changes no column but `order` |
| Reorder.ReorderWidgetsIdempotent | dashboard/views.py:97-103 | posting the same widget list twice gives the state of posting it once |
| Reorder.ReorderedWidgetsListing | dashboard/views.py:97-103 | when the posted ids are exactly a page's widgets, without repetition, the page then lists them in posted order |
| Views.AppendedListedLast | dashboard/views.py:153-155 | a row appended with order 999 among siblings whose orders are below 999 is listed last, after the others in their old order |
| Views.Given | dashboard/views.py:154 | definition of the truthiness test on a posted field (present and non-empty), used alike at views.py:154, 191, 228, 295 and 308; the posted target page id at views.py:269 is modelled as `Some?` instead |
| Views.Dashboard.constructor | dashboard/models.py:3-83 | an empty store is valid and its counters start at 1 |
| Views.Dashboard.UpdateLinkOrder | dashboard/views.py:55-77 | no widget id: Ok, nothing changes; unknown widget: NotFound, nothing changes; otherwise the links become the reordered links and nothing else changes |
| Views.Dashboard.UpdateWidgetOrder | dashboard/views.py:95-105 | always Ok; the widgets become the reordered widgets and nothing else changes |
| Views.Dashboard.MoveLinkToPage | dashboard/views.py:123-134 | NotFound exactly when the link or the posted target page is missing; BadRequest exactly when the target has no widgets, with nothing changed; Ok moves the link to the target's first widget by order and keeps its `order` |
| Views.Dashboard.AddLink | dashboard/views.py:149-158 | NotFound exactly for an unknown widget; a new link with order 999 and the next id exactly when title and url are both given; otherwise nothing changes |
| Views.Dashboard.DeleteLink | dashboard/views.py:172-174 | NotFound exactly for an unknown link; otherwise exactly that link is removed |
| Views.Dashboard.CreatePage | dashboard/views.py:190-208 | with no name nothing changes; otherwise exactly one page is added with that name, order 999 and the first slug of `slugify(name)`, `slugify(name)-1`, ... not used before |
| Views.Dashboard.RenamePage | dashboard/views.py:225-235 | NotFound exactly for an unknown page; ConstraintViolation exactly when another page has the new slug; otherwise a given name sets name and `slug = slugify(name)`, keeps `order`, and an empty name changes nothing |
| Views.Dashboard.DeletePage | dashboard/views.py:249-251 | NotFound exactly for an unknown page; otherwise the store becomes the cascade delete of that page |
| Views.Dashboard.MoveWidgetToPage | dashboard/views.py:266-277 | NotFound exactly for an unknown widget or an unknown posted target; a posted target sets `page` and order 999 and leaves the links attached; no target changes nothing |
| Views.Dashboard.DeleteWidget | dashboard/views.py:282-285 | NotFound exactly for an unknown widget; otherwise the store becomes the cascade delete of that widget |
| Views.Dashboard.AddWidget | dashboard/views.py:291-300 | NotFound exactly for an unknown page; a new list widget with order 999 exactly when a title is given; otherwise nothing changes |
| Views.Dashboard.RenameWidget | dashboard/views.py:302-312 | NotFound exactly for an unknown widget; a given title replaces the title; an empty one changes nothing |
| Views.Dashboard.EditLink | dashboard/views.py:320-328 | NotFound exactly for an unknown link; title and url are overwritten with what was posted, even empty; a missing title is refused by its NOT NULL column |
| ImportJson.Icon | dashboard/management/commands/import_json.py:54 | definition of the icon of an entry: its third element when there is one, otherwise `""` |
| ImportJson.FindPage | dashboard/management/commands/import_json.py:28-31 | definition of the lookup of `get_or_create(slug=...)`: the lowest id of a page with that slug |
| ImportJson.FindWidget | dashboard/management/commands/import_json.py:41-45 | definition of the lookup of `get_or_create(title=..., page=...)` |
| ImportJson.FindLink | dashboard/management/commands/import_json.py:57-59 | definition of the lookup of `get_or_create(url=..., widget=...)` |
| ImportJson.NewLink | dashboard/management/commands/import_json.py:57-65 | definition of the row a link `get_or_create` inserts: the entry's title, url and icon, and the running order |
| ImportJson.ImportLink | dashboard/management/commands/import_json.py:57-65 | definition of one link `get_or_create`: nothing when the lookup finds a row, otherwise the new link under the next id |
| ImportJson.ImportLinks | dashboard/management/commands/import_json.py:48-66 | definition of the link loop as a fold whose counter is the position in the list |
| ImportJson.GetOrCreateWidget | dashboard/management/commands/import_json.py:41-45 | definition of one widget `get_or_create` with the running order as default |
| ImportJson.ImportWidget | dashboard/management/commands/import_json.py:41-66 | definition of one widget step: its `get_or_create`, then its links |
| ImportJson.ImportWidgets | dashboard/management/commands/import_json.py:36-66 | definition of the widget loop as a fold whose counter is the position in the mapping |
| ImportJson.GetOrCreatePage | dashboard/management/commands/import_json.py:28-31 | definition of one page `get_or_create` by `slugify(name)` with the name as default |
| ImportJson.ImportPage | dashboard/management/commands/import_json.py:28-66 | definition of one page step: its `get_or_create`, then its widgets |
| ImportJson.ImportAll | dashboard/management/commands/import_json.py:26-66 | definition of the import as a fold over the pages; its properties are stated by `ImportOnlyInserts`, `ImportTwiceSameAsOnce` and the `NewRows` lemmas |
| ImportJson.ImportLinkGrows | dashboard/management/commands/import_json.py:57-65 | one link `get_or_create` keeps the store valid, only inserts, and inserts no second link with the same url in the same widget |
| ImportJson.GetOrCreateWidgetGrows | dashboard/management/commands/import_json.py:41-45 | a widget `get_or_create` returns a widget of the page that the same lookup then finds, and only inserts |
| ImportJson.GetOrCreatePageGrows | dashboard/management/commands/import_json.py:28-31 | a page `get_or_create` returns a page with that slug, which the same lookup then finds, and only inserts |
| ImportJson.ImportLinksFrame | dashboard/management/commands/import_json.py:50-66 | importing links touches only the links table |
| ImportJson.ImportWidgetsFrame | dashboard/management/commands/import_json.py:39-66 | importing widgets and links touches no page |
| ImportJson.ImportOnlyInserts | dashboard/management/commands/import_json.py:26-66 | the import keeps the store valid, never changes or removes an existing row, so an existing page keeps its name and an existing widget or link its order, and never creates a second link with the same url in the same widget |
| ImportJson.FindLinkStable | dashboard/management/commands/import_json.py:57-59 | a link lookup that succeeds keeps its answer when rows are added under fresh ids |
| ImportJson.ImportAllCovers | dashboard/management/commands/import_json.py:26-66 | after an import every page, widget and link it looked up is present |
| ImportJson.CoveredImportUnchanged | dashboard/management/commands/import_json.py:26-66 | an import whose every row is already present changes nothing |
| ImportJson.ImportTwiceSameAsOnce | dashboard/management/commands/import_json.py:28-65 | re-running the import on the same data changes nothing |
| ImportJson.ImportLinksNewRows | dashboard/management/commands/import_json.py:48-66 | a link the import adds is an entry of the list with its title, url and icon (the third element or `""`) and with its index in the list as order, the counter counting existing links as well |
| ImportJson.ImportWidgetsNewRows | dashboard/management/commands/import_json.py:36-46 | a widget the import adds has its mapping's title, the page, the list type and its position in the mapping as order |
| ImportJson.ImportAllNewPages | dashboard/management/commands/import_json.py:28-31 | a page the import adds has the name it was imported under, slug `slugify(name)` and the default order 0 |
| ImportJson.ImportLinksInto | dashboard/management/commands/import_json.py:48-66 | the link loop with its `link_order` counter leaves exactly the state of the link fold |
| ImportJson.ImportWidgetsInto | dashboard/management/commands/import_json.py:36-66 | the widget loop with its `widget_order` counter leaves exactly the state of the widget fold |
| ImportJson.GetOrCreatePageIn | dashboard/management/commands/import_json.py:28-31 | the page `get_or_create` in place leaves exactly the state and page of its pure counterpart |
| ImportJson.Handle | dashboard/management/commands/import_json.py:26-66 | the command's nested loops leave the store valid and exactly equal to the pure import of the data |

## Left out

- Rendering, redirects, `HTTP_REFERER`, CSRF and `require_POST`: each view is reduced to its effect on the store and an `Outcome`.
- The `index` view and the GET branches of `rename_widget` and `edit_link` only read and render, so they are not modelled.
- `update_page_order`, `save_note_content`, `run_command`, `open_local_file`, `system_monitor`, `get_network_info` and `download_backup` are routed in `dashboard/urls.py`, but their code is not part of this model.
- `install_dashboard.py`, `export_project.py`, `get_static_files.py`, the admin and the URL configuration are not modelled: they are file, network or configuration code.
- `seed_db.py` is not modelled: it deletes every page, which `Models.CascadeDeletePage` covers, and then inserts fixed rows through the same `create` calls the modelled views use.
- The template filter `get_item` is not modelled: it is a dictionary lookup with a default and touches no store.
- Ids are natural numbers. A posted id that is not a number makes Django raise `ValueError`; that path is not modelled.
- `max_length` limits and the 32-bit width of `order` are not modelled. `order` is an unbounded integer.
- Django's `slugify` internals: the model treats it as an arbitrary function.
- Reading `data_export.json`, the file-exists check and the console messages of `import_json`: `ImportJson.Handle` takes the parsed data.
- ImportJson.Handle: a link entry is a list of at least two strings, so the `IndexError` of a shorter entry and non-string JSON values are not modelled.
- ImportJson.Handle: the parsed `dict`s of pages and widgets cannot repeat a key, but the model's sequences may. The model therefore admits more inputs than the command sees, and the proofs cover those too; a repeated entry is handled like any later one.
- ImportJson.Handle: its three nested loops are written as three methods, `Handle`, `ImportWidgetsInto` and `ImportLinksInto`, plus the page lookup `GetOrCreatePageIn`.
- `MultipleObjectsReturned` of `get_or_create` is not modelled: the lookups take the lowest matching id.
- Ordering: ties in `order` are broken by id here, while Django leaves their order to the database.
- Transactions and concurrent requests are not modelled: every operation is atomic and sequential.
- Views.Dashboard.RenamePage: a rejected rename is a 500 error in the application; the model keeps only its outcome, with nothing saved.
