/** `class Meta: ordering = ['order']` on Page, Widget and Link: siblings are
    listed by ascending `order`, and `.first()` is the head of that listing.
    The column alone does not order rows with equal `order`; this model breaks
    such ties by id so that listing and `.first()` are functions. */
module Ordering {
  import opened Models

  /** `a` is listed before `b` when `m` gives each sibling its `order`. */
  predicate Precedes(m: map<Id, int>, a: Id, b: Id)
    requires a in m && b in m
  {
    m[a] < m[b] || (m[a] == m[b] && a < b)
  }

  /** The listing order is a strict total order on siblings: asymmetric,
      total on distinct rows, and transitive. */
  lemma PrecedesStrictTotal(m: map<Id, int>, a: Id, b: Id)
    requires a in m && b in m
    ensures !(Precedes(m, a, b) && Precedes(m, b, a))
    ensures a != b ==> Precedes(m, a, b) || Precedes(m, b, a)
    ensures forall c :: c in m && Precedes(m, a, b) && Precedes(m, b, c) ==> Precedes(m, a, c)
  {
  }

  lemma {:induction false} LeastIn(m: map<Id, int>, ks: set<Id>)
    requires ks != {} && ks <= m.Keys
    ensures exists x :: x in ks && forall y :: y in ks && y != x ==> Precedes(m, x, y)
    decreases |ks|
  {
    var x :| x in ks;
    if ks != {x} {
      var rest := ks - {x};
      LeastIn(m, rest);
      var z :| z in rest && forall y :: y in rest && y != z ==> Precedes(m, z, y);
      if Precedes(m, x, z) {
        forall y | y in ks && y != x ensures Precedes(m, x, y) {
          if y != z { assert y in rest && Precedes(m, z, y); }
        }
      } else {
        forall y | y in ks && y != z ensures Precedes(m, z, y) {
          if y != x { assert y in rest; }
        }
      }
    }
  }

  lemma LeastExists(m: map<Id, int>)
    requires |m| > 0
    ensures exists x :: x in m && forall y :: y in m && y != x ==> Precedes(m, x, y)
  {
    assert m.Keys != {} by { assert |m.Keys| == |m|; }
    LeastIn(m, m.Keys);
  }

  /** The sibling listed first. */
  function Least(m: map<Id, int>): (x: Id)
    requires |m| > 0
    ensures x in m && forall y :: y in m && y != x ==> Precedes(m, x, y)
  {
    LeastExists(m);
    var x :| x in m && forall y :: y in m && y != x ==> Precedes(m, x, y);
    x
  }

  /** `.first()` on an ordered queryset: `None` exactly when it is empty. */
  function First(m: map<Id, int>): (r: Option<Id>)
    ensures r.None? <==> |m| == 0
    ensures r.Some? ==> r.value in m && forall y :: y in m && y != r.value ==> m[r.value] <= m[y]
  {
    if |m| == 0 then None else Some(Least(m))
  }

  /** The siblings in the order the queryset lists them. */
  function Listing(m: map<Id, int>): seq<Id>
    decreases |m|
  {
    if |m| == 0 then []
    else
      var x := Least(m);
      assert (m - {x}).Keys == m.Keys - {x};
      [x] + Listing(m - {x})
  }

  /** `s` lists exactly the keys of `m`, each once, in listing order. */
  ghost predicate ListsInOrder(m: map<Id, int>, s: seq<Id>)
  {
    && (forall x :: x in s <==> x in m)
    && (forall i, j :: 0 <= i < j < |s| ==> s[i] in m && s[j] in m && Precedes(m, s[i], s[j]))
  }

  /** Putting the least sibling in front of an in-order listing of the
      others lists them all in order. */
  lemma ConsLeastInOrder(m: map<Id, int>, x: Id, rest: seq<Id>)
    requires x in m && forall y :: y in m && y != x ==> Precedes(m, x, y)
    requires ListsInOrder(m - {x}, rest)
    ensures ListsInOrder(m, [x] + rest)
  {
    var s := [x] + rest;
    forall y ensures y in s <==> y in m {
      assert y in s <==> y == x || y in rest;
    }
    forall i, j | 0 <= i < j < |s| ensures s[i] in m && s[j] in m && Precedes(m, s[i], s[j]) {
      assert s[j] == rest[j - 1];
      if i > 0 {
        assert s[i] == rest[i - 1];
        assert Precedes(m - {x}, s[i], s[j]);
      }
    }
  }

  lemma {:induction false} ListingInOrder(m: map<Id, int>)
    ensures ListsInOrder(m, Listing(m))
    ensures |Listing(m)| == |m|
    decreases |m|
  {
    if |m| > 0 {
      var x := Least(m);
      var rest := m - {x};
      assert rest.Keys == m.Keys - {x};
      ListingInOrder(rest);
      assert Listing(m) == [x] + Listing(rest);
      ConsLeastInOrder(m, x, Listing(rest));
    }
  }

  /** The head of an in-order listing is the least sibling. */
  lemma HeadIsLeast(m: map<Id, int>, s: seq<Id>)
    requires ListsInOrder(m, s) && |s| > 0
    ensures s[0] in m && forall y :: y in m && y != s[0] ==> Precedes(m, s[0], y)
  {
    forall y | y in m && y != s[0] ensures Precedes(m, s[0], y) {
      var k :| 0 <= k < |s| && s[k] == y;
      assert 0 < k;
    }
  }

  /** The tail of an in-order listing lists the other siblings in order. */
  lemma TailInOrder(m: map<Id, int>, s: seq<Id>)
    requires ListsInOrder(m, s) && |s| > 0
    ensures ListsInOrder(m - {s[0]}, s[1..])
  {
    var m' := m - {s[0]};
    forall i | 0 < i < |s| ensures s[i] != s[0] {
      assert Precedes(m, s[0], s[i]);
    }
    forall x ensures x in s[1..] <==> x in m' {
      if x in m' {
        var k :| 0 <= k < |s| && s[k] == x;
        assert s[1..][k - 1] == x;
      }
    }
    forall i, j | 0 <= i < j < |s[1..]| ensures s[1..][i] in m' && s[1..][j] in m' && Precedes(m', s[1..][i], s[1..][j]) {
      assert Precedes(m, s[i + 1], s[j + 1]);
    }
  }

  /** Names `t[0]` only where it exists, so that an empty `t` can be
      concluded from "nothing is in `t`" without indexing into it. */
  lemma EmptyOrHasHead(t: seq<Id>)
    ensures t == [] || t[0] in t
  {
  }

  /** A duplicate-free listing in order is determined by the set it lists. */
  lemma {:induction false} InOrderUnique(m: map<Id, int>, s: seq<Id>, t: seq<Id>)
    requires ListsInOrder(m, s) && ListsInOrder(m, t)
    ensures s == t
    decreases |s|
  {
    if |s| == 0 {
      assert forall x :: x !in t;
      EmptyOrHasHead(t);
    } else {
      assert s[0] in t;
      HeadIsLeast(m, s);
      HeadIsLeast(m, t);
      assert s[0] == t[0];
      TailInOrder(m, s);
      TailInOrder(m, t);
      InOrderUnique(m - {s[0]}, s[1..], t[1..]);
      assert s == [s[0]] + s[1..] && t == [t[0]] + t[1..];
    }
  }

  /** `Listing` is the one sequence that lists the siblings in order. */
  lemma ListingCharacterized(m: map<Id, int>, s: seq<Id>)
    ensures ListsInOrder(m, s) <==> s == Listing(m)
  {
    ListingInOrder(m);
    if ListsInOrder(m, s) { InOrderUnique(m, s, Listing(m)); }
  }

  /** `.first()` is the head of the listing. */
  lemma FirstIsHead(m: map<Id, int>)
    ensures First(m) == if Listing(m) == [] then None else Some(Listing(m)[0])
  {
    ListingInOrder(m);
  }

  /** The smallest id of a non-empty set. */
  function MinId(s: set<Id>): (x: Id)
    requires s != {}
    ensures x in s && forall y :: y in s ==> x <= y
  {
    MinIdExists(s);
    var x :| x in s && forall y :: y in s ==> x <= y;
    x
  }

  lemma MinIdExists(s: set<Id>)
    requires s != {}
    ensures exists x :: x in s && forall y :: y in s ==> x <= y
  {
    var x :| x in s;
    MinIdBelow(s, x);
  }

  /** Descending from any member reaches the smallest one. */
  lemma {:induction false} MinIdBelow(s: set<Id>, x: Id)
    requires x in s
    ensures exists m :: m in s && m <= x && forall y :: y in s ==> m <= y
    decreases x
  {
    if exists y :: y in s && y < x {
      var y :| y in s && y < x;
      MinIdBelow(s, y);
    } else {
      assert forall y :: y in s ==> x <= y;
    }
  }

  /** The `order` of the widgets of page `p`, and of the links of widget
      `w`: the sibling groups that get listed. */
  function WidgetOrders(db: Db, p: Id): map<Id, int>
  {
    map w | w in db.widgets && db.widgets[w].page == p :: db.widgets[w].order
  }

  function LinkOrders(db: Db, w: Id): map<Id, int>
  {
    map l | l in db.links && db.links[l].widget == w :: db.links[l].order
  }

  /** A sequence of distinct ids, each given its position as `order`, is
      listed in exactly that sequence. */
  lemma PositionsListing(m: map<Id, int>, ids: seq<Id>)
    requires forall i, j :: 0 <= i < j < |ids| ==> ids[i] != ids[j]
    requires forall x :: x in m <==> x in ids
    requires forall i :: 0 <= i < |ids| ==> m[ids[i]] == i
    ensures Listing(m) == ids
  {
    assert ListsInOrder(m, ids);
    ListingCharacterized(m, ids);
  }
}
