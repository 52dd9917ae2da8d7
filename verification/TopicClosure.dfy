/** Topic views over the index: the bounded closure of a topic's children and the pages tagged within it. */
module TopicClosure {
  import opened Outcomes
  import opened Text
  import opened IndexTables

  /** Edges as stored: child, parent. */
  type Edges = set<(Slug, Slug)>

  const MAX_DEPTH := 32

  datatype Row = Row(slug: Slug, depth: nat)

  function Children(edges: Edges, slug: Slug): set<Slug> {
    set edge | edge in edges && edge.1 == slug :: edge.0
  }

  function ChildrenOfAll(edges: Edges, slugs: set<Slug>): set<Slug> {
    set edge | edge in edges && edge.1 in slugs :: edge.0
  }

  /** The topics exactly `n` child steps away, by some path. */
  function Level(edges: Edges, slug: Slug, n: nat): set<Slug> {
    if n == 0 then {slug} else ChildrenOfAll(edges, Level(edges, slug, n - 1))
  }

  /** The topics at most `n` child steps away. */
  function Within(edges: Edges, slug: Slug, n: nat): set<Slug> {
    if n == 0 then {slug} else Within(edges, slug, n - 1) + Level(edges, slug, n)
  }

  /** A walk down child edges. */
  predicate Path(edges: Edges, path: seq<Slug>) {
    path != [] && forall i {:trigger path[i]} :: 0 < i < |path| ==> (path[i], path[i - 1]) in edges
  }

  predicate Reaches(edges: Edges, from: Slug, to: Slug, path: seq<Slug>) {
    Path(edges, path) && path[0] == from && path[|path| - 1] == to
  }

  /** Being on a level is having a path of that many steps. */
  lemma {:induction false} LevelIsPath(edges: Edges, slug: Slug, n: nat, to: Slug)
    ensures to in Level(edges, slug, n) <==> exists path :: |path| == n + 1 && Reaches(edges, slug, to, path)
  {
    if n == 0 {
      assert Reaches(edges, slug, slug, [slug]);
    } else {
      if to in Level(edges, slug, n) {
        var edge :| edge in edges && edge.1 in Level(edges, slug, n - 1) && edge.0 == to;
        LevelIsPath(edges, slug, n - 1, edge.1);
        var path :| |path| == n && Reaches(edges, slug, edge.1, path);
        var longer := path + [to];
        assert Path(edges, longer) by {
          forall i | 0 < i < |longer| ensures (longer[i], longer[i - 1]) in edges {
            assert i < n ==> path[i] == longer[i];
          }
        }
        assert Reaches(edges, slug, to, longer);
      }
      forall path | |path| == n + 1 && Reaches(edges, slug, to, path) ensures to in Level(edges, slug, n) {
        var init := path[..n];
        assert Path(edges, init) by {
          forall i | 0 < i < n ensures (init[i], init[i - 1]) in edges {
            assert init[i] == path[i];
          }
        }
        assert Reaches(edges, slug, path[n - 1], init);
        LevelIsPath(edges, slug, n - 1, path[n - 1]);
        assert path[n] == to;
      }
    }
  }

  predicate OnLevel(edges: Edges, slug: Slug, n: nat, to: Slug) {
    to in Level(edges, slug, n)
  }

  lemma {:induction false} WithinIsSomeLevel(edges: Edges, slug: Slug, n: nat, to: Slug)
    ensures to in Within(edges, slug, n) <==> exists d :: 0 <= d <= n && OnLevel(edges, slug, d, to)
  {
    if n == 0 {
      assert OnLevel(edges, slug, 0, slug);
    } else {
      WithinIsSomeLevel(edges, slug, n - 1, to);
      assert OnLevel(edges, slug, n, to) <==> to in Level(edges, slug, n);
    }
  }

  // ---- The recursive query ------------------------------------------------------------------------------

  /** All rows the query may produce: a topic with each depth it stands on. */
  function RowsWithin(edges: Edges, slug: Slug, n: nat): set<Row> {
    (set to | to in Level(edges, slug, n) :: Row(to, n)) + if n == 0 then {} else RowsWithin(edges, slug, n - 1)
  }

  lemma {:induction false} RowsAreLevels(edges: Edges, slug: Slug, n: nat, row: Row)
    ensures row in RowsWithin(edges, slug, n) <==> row.depth <= n && row.slug in Level(edges, slug, row.depth)
  {
    if n > 0 {
      RowsAreLevels(edges, slug, n - 1, row);
    }
  }

  function Next(edges: Edges, row: Row): set<Row> {
    if row.depth < MAX_DEPTH then set child | child in Children(edges, row.slug) :: Row(child, row.depth + 1) else {}
  }

  /** The rows seen follow the query from its first row, and each row no longer waiting has its successors seen. */
  ghost predicate Descending(edges: Edges, slug: Slug, seen: set<Row>, waiting: set<Row>) {
    && Row(slug, 0) in seen && waiting <= seen <= RowsWithin(edges, slug, MAX_DEPTH)
    && forall row {:trigger Next(edges, row)} :: row in seen && row !in waiting ==> Next(edges, row) <= seen
  }

  lemma {:induction false} NextIsWithin(edges: Edges, slug: Slug, row: Row)
    requires row in RowsWithin(edges, slug, MAX_DEPTH)
    ensures Next(edges, row) <= RowsWithin(edges, slug, MAX_DEPTH)
  {
    RowsAreLevels(edges, slug, MAX_DEPTH, row);
    forall next | next in Next(edges, row) ensures next in RowsWithin(edges, slug, MAX_DEPTH) {
      RowsAreLevels(edges, slug, MAX_DEPTH, next);
      var edge :| edge in edges && edge.1 == row.slug && edge.0 == next.slug;
    }
  }

  /** With no row waiting, all rows of all levels have been seen. */
  lemma {:induction false} NothingWaits(edges: Edges, slug: Slug, seen: set<Row>, n: nat, to: Slug)
    requires Descending(edges, slug, seen, {}) && n <= MAX_DEPTH && to in Level(edges, slug, n)
    ensures Row(to, n) in seen
  {
    if n > 0 {
      var edge :| edge in edges && edge.1 in Level(edges, slug, n - 1) && edge.0 == to;
      NothingWaits(edges, slug, seen, n - 1, edge.1);
      assert to in Children(edges, edge.1);
      assert Row(to, n) in Next(edges, Row(edge.1, n - 1));
    }
  }

  lemma {:induction false} OneRowLess(edges: Edges, slug: Slug, seen: set<Row>, waiting: set<Row>, row: Row)
    requires Descending(edges, slug, seen, waiting) && row in waiting
    ensures var new_ := Next(edges, row) - seen; Descending(edges, slug, seen + new_, waiting - {row} + new_)
  {
    NextIsWithin(edges, slug, row);
  }

  /** The `WITH RECURSIVE` of `topic_descendants`, one row of its queue at a time: it ends on cyclic graphs too. */
  method DescendantRows(edges: Edges, slug: Slug) returns (rows: set<Row>)
    ensures rows == RowsWithin(edges, slug, MAX_DEPTH)
  {
    rows := {Row(slug, 0)};
    var waiting := rows;
    RowsAreLevels(edges, slug, MAX_DEPTH, Row(slug, 0));
    while waiting != {}
      invariant Descending(edges, slug, rows, waiting)
      decreases RowsWithin(edges, slug, MAX_DEPTH) - rows, waiting
    {
      var row :| row in waiting;
      OneRowLess(edges, slug, rows, waiting, row);
      var new_ := Next(edges, row) - rows;
      rows := rows + new_;
      waiting := waiting - {row} + new_;
    }
    forall row | row in RowsWithin(edges, slug, MAX_DEPTH) ensures row in rows {
      RowsAreLevels(edges, slug, MAX_DEPTH, row);
      NothingWaits(edges, slug, rows, row.depth, row.slug);
    }
  }

  // ---- Bounded and unbounded reachability -------------------------------------------------------------------

  /** Once a step adds nothing, no later step does. */
  lemma {:induction false} StandsStill(edges: Edges, slug: Slug, n: nat, m: nat)
    requires Level(edges, slug, n + 1) <= Within(edges, slug, n)
    ensures Level(edges, slug, n + m) <= Within(edges, slug, n)
  {
    forall to | to in Level(edges, slug, n + m) ensures to in Within(edges, slug, n) {
      if m == 0 {
        WithinIsSomeLevel(edges, slug, n, to);
      } else {
        StandsStill(edges, slug, n, m - 1);
        var edge :| edge in edges && edge.1 in Level(edges, slug, n + m - 1) && edge.0 == to;
        WithinIsSomeLevel(edges, slug, n, edge.1);
        var d :| 0 <= d <= n && OnLevel(edges, slug, d, edge.1);
        assert OnLevel(edges, slug, d + 1, to);
        WithinIsSomeLevel(edges, slug, n, to);
      }
    }
  }

  /** The step after `n` adds nothing. */
  predicate Stops(edges: Edges, slug: Slug, n: nat) {
    Level(edges, slug, n + 1) <= Within(edges, slug, n)
  }

  lemma {:induction false} WithinGrows(edges: Edges, slug: Slug, n: nat)
    ensures (exists k :: 0 <= k < n && Stops(edges, slug, k)) || |Within(edges, slug, n)| >= n + 1
  {
    if n > 0 {
      WithinGrows(edges, slug, n - 1);
      var before, level := Within(edges, slug, n - 1), Level(edges, slug, n);
      if level <= before {
        assert Stops(edges, slug, n - 1);
      } else if |before| >= n {
        var to :| to in level && to !in before;
        NoSmaller(before + {to}, before + level);
      }
    }
  }

  lemma {:induction false} NoSmaller<T>(part: set<T>, whole: set<T>)
    requires part <= whole
    ensures |part| <= |whole| && (|part| == |whole| ==> part == whole)
  {
    if part != {} {
      var x :| x in part;
      NoSmaller(part - {x}, whole - {x});
    }
  }

  lemma {:induction false} WithinTopics(edges: Edges, slug: Slug, topics: set<Slug>, n: nat)
    requires slug in topics && forall edge :: edge in edges ==> edge.0 in topics
    ensures Within(edges, slug, n) <= topics && Level(edges, slug, n) <= topics
  {
    if n > 0 {
      WithinTopics(edges, slug, topics, n - 1);
    }
  }

  lemma {:induction false} StoppedIsEnough(edges: Edges, slug: Slug, bound: nat, k: nat, n: nat)
    requires k <= bound && Stops(edges, slug, k) && k <= n
    ensures Level(edges, slug, n) <= Within(edges, slug, bound)
  {
    StandsStill(edges, slug, k, n - k);
    forall to | to in Level(edges, slug, n) ensures to in Within(edges, slug, bound) {
      WithinIsSomeLevel(edges, slug, k, to);
      WithinIsSomeLevel(edges, slug, bound, to);
    }
  }

  lemma {:induction false} LevelIsWithin(edges: Edges, slug: Slug, bound: nat, n: nat)
    requires n <= bound
    ensures Level(edges, slug, n) <= Within(edges, slug, bound)
  {
    forall to | to in Level(edges, slug, n) ensures to in Within(edges, slug, bound) {
      assert OnLevel(edges, slug, n, to);
      WithinIsSomeLevel(edges, slug, bound, to);
    }
  }

  /** Among no more topics than one above the bound, whatever can be reached at all is reached within the bound. */
  lemma {:induction false} BoundIsEnough(edges: Edges, slug: Slug, topics: set<Slug>, bound: nat, n: nat)
    requires slug in topics && |topics| <= bound + 1 && forall edge :: edge in edges ==> edge.0 in topics
    ensures Level(edges, slug, n) <= Within(edges, slug, bound)
  {
    WithinGrows(edges, slug, bound);
    if n <= bound {
      LevelIsWithin(edges, slug, bound, n);
    } else if exists k :: 0 <= k < bound && Stops(edges, slug, k) {
      var k :| 0 <= k < bound && Stops(edges, slug, k);
      StoppedIsEnough(edges, slug, bound, k, n);
    } else {
      WithinTopics(edges, slug, topics, bound);
      WithinTopics(edges, slug, topics, n);
      NoSmaller(Within(edges, slug, bound), topics);
    }
  }

  /** Some path, of whatever length, leads to the topic. */
  ghost predicate Reachable(edges: Edges, slug: Slug, to: Slug) {
    exists path :: Reaches(edges, slug, to, path)
  }

  lemma {:induction false} WithinIsReachable(edges: Edges, slug: Slug, bound: nat, to: Slug)
    requires to in Within(edges, slug, bound)
    ensures Reachable(edges, slug, to)
  {
    WithinIsSomeLevel(edges, slug, bound, to);
    var d :| 0 <= d <= bound && OnLevel(edges, slug, d, to);
    LevelIsPath(edges, slug, d, to);
  }

  lemma {:induction false} ReachableIsWithin(edges: Edges, slug: Slug, bound: nat, to: Slug)
    requires Reachable(edges, slug, to) && Stops(edges, slug, bound)
    ensures to in Within(edges, slug, bound)
  {
    var path :| Reaches(edges, slug, to, path);
    var n := |path| - 1;
    LevelIsPath(edges, slug, n, to);
    if n <= bound {
      LevelIsWithin(edges, slug, bound, n);
    } else {
      StoppedIsEnough(edges, slug, bound, bound, n);
    }
  }

  /** A closure up to a bound is exact if and only if the step after the bound adds nothing. */
  lemma {:induction false} ExactWhenStopped(edges: Edges, slug: Slug, bound: nat)
    ensures (forall to :: to in Within(edges, slug, bound) <==> Reachable(edges, slug, to)) <==> Stops(edges, slug, bound)
  {
    if Stops(edges, slug, bound) {
      forall to ensures to in Within(edges, slug, bound) <==> Reachable(edges, slug, to) {
        if to in Within(edges, slug, bound) {
          WithinIsReachable(edges, slug, bound, to);
        } else if Reachable(edges, slug, to) {
          ReachableIsWithin(edges, slug, bound, to);
        }
      }
    } else {
      var to :| to in Level(edges, slug, bound + 1) && to !in Within(edges, slug, bound);
      LevelIsPath(edges, slug, bound + 1, to);
      assert Reachable(edges, slug, to);
    }
  }

  /** The descendants the query finds are exactly the topics some path leads to if and only if no topic is first met at the
      33rd step. */
  lemma {:induction false} ClosureIsExact(edges: Edges, slug: Slug)
    ensures (forall to :: to in Within(edges, slug, MAX_DEPTH) <==> Reachable(edges, slug, to))
            <==> Level(edges, slug, MAX_DEPTH + 1) <= Within(edges, slug, MAX_DEPTH)
  {
    ExactWhenStopped(edges, slug, MAX_DEPTH);
  }

  /** So with at most 33 topics it is exact: a topic is in it just when some path leads to it. */
  lemma {:induction false} ClosureIsReachability(edges: Edges, slug: Slug, topics: set<Slug>, to: Slug)
    requires slug in topics && |topics| <= MAX_DEPTH + 1 && forall edge :: edge in edges ==> edge.0 in topics
    ensures to in Within(edges, slug, MAX_DEPTH) <==> Reachable(edges, slug, to)
  {
    BoundIsEnough(edges, slug, topics, MAX_DEPTH, MAX_DEPTH + 1);
    ExactWhenStopped(edges, slug, MAX_DEPTH);
  }

  function Link(name: nat -> Slug, i: nat): (Slug, Slug) {
    (name(i + 1), name(i))
  }

  /** Along a chain of topics each step leads to the next topic alone. */
  lemma {:induction false} ChainSteps(edges: Edges, name: nat -> Slug, place: Slug -> nat, length: nat, n: nat)
    requires n <= length + 1 && forall i: nat {:trigger name(i)} :: place(name(i)) == i
    requires edges == set i {:trigger Link(name, i)} | 0 <= i <= length :: Link(name, i)
    ensures Level(edges, name(0), n) == {name(n)}
  {
    if n > 0 {
      ChainSteps(edges, name, place, length, n - 1);
      assert Link(name, n - 1) in edges;
    }
  }

  /** With 34 topics in a chain the bound of 32 cuts the last one off, although a path leads to it. */
  lemma {:induction false} ChainIsCut(edges: Edges, name: nat -> Slug, place: Slug -> nat, bound: nat)
    requires forall i: nat {:trigger name(i)} :: place(name(i)) == i
    requires edges == set i {:trigger Link(name, i)} | 0 <= i <= bound :: Link(name, i)
    ensures name(bound + 1) !in Within(edges, name(0), bound)
    ensures Reachable(edges, name(0), name(bound + 1)) && !Stops(edges, name(0), bound)
  {
    var last := name(bound + 1);
    WithinIsSomeLevel(edges, name(0), bound, last);
    forall d | 0 <= d <= bound ensures !OnLevel(edges, name(0), d, last) {
      ChainSteps(edges, name, place, bound, d);
      assert place(last) == bound + 1 && place(name(d)) == d;
    }
    ChainSteps(edges, name, place, bound, bound + 1);
    LevelIsPath(edges, name(0), bound + 1, last);
  }

  // ---- Views ----------------------------------------------------------------------------------------------

  predicate Ascending(slugs: seq<Slug>) {
    forall i, j :: 0 <= i < j < |slugs| ==> !Less(slugs[j], slugs[i])
  }

  predicate StrictlyAscending(slugs: seq<Slug>) {
    forall i, j :: 0 <= i < j < |slugs| ==> Less(slugs[i], slugs[j])
  }

  function Inserted(ordered: seq<Slug>, slug: Slug): seq<Slug> {
    if ordered == [] || Less(slug, ordered[0]) then [slug] + ordered else [ordered[0]] + Inserted(ordered[1..], slug)
  }

  lemma {:induction false} InsertedKeeps(ordered: seq<Slug>, slug: Slug)
    ensures multiset(Inserted(ordered, slug)) == multiset(ordered) + multiset{slug}
  {
    if ordered != [] && !Less(slug, ordered[0]) {
      InsertedKeeps(ordered[1..], slug);
      assert ordered == [ordered[0]] + ordered[1..];
    }
  }

  lemma {:induction false} InsertedIsAscending(ordered: seq<Slug>, slug: Slug)
    requires Ascending(ordered)
    ensures Ascending(Inserted(ordered, slug))
  {
    if ordered != [] {
      var first, rest := ordered[0], ordered[1..];
      if Less(slug, first) {
        forall j | 0 <= j < |ordered| ensures !Less(ordered[j], slug) {
          if Less(ordered[j], slug) {
            LessTransitive(ordered[j], slug, first);
            LessIrreflexive(first);
          }
        }
      } else {
        InsertedIsAscending(rest, slug);
        InsertedKeeps(rest, slug);
        var tail := Inserted(rest, slug);
        forall j | 0 <= j < |tail| ensures !Less(tail[j], first) {
          assert tail[j] in multiset(tail);
          assert tail[j] == slug || tail[j] in rest;
        }
      }
    }
  }

  /** `ORDER BY`, for any collection of slugs. */
  method Ordered(slugs: multiset<Slug>) returns (ordered: seq<Slug>)
    ensures multiset(ordered) == slugs && Ascending(ordered)
  {
    ordered := [];
    var left := slugs;
    while |left| > 0
      invariant multiset(ordered) + left == slugs && Ascending(ordered)
      decreases |left|
    {
      var slug :| slug in left;
      left := left - multiset{slug};
      InsertedKeeps(ordered, slug);
      InsertedIsAscending(ordered, slug);
      ordered := Inserted(ordered, slug);
    }
  }

  /** Distinct slugs in ascending order ascend strictly. */
  lemma {:induction false} DistinctAscend(ordered: seq<Slug>, slugs: set<Slug>)
    requires Ascending(ordered) && multiset(ordered) == multiset(slugs)
    ensures StrictlyAscending(ordered) && forall slug :: slug in ordered <==> slug in slugs
  {
    forall i, j | 0 <= i < j < |ordered| ensures Less(ordered[i], ordered[j]) {
      LessTotal(ordered[i], ordered[j]);
      assert multiset(ordered)[ordered[i]] <= 1;
      if ordered[i] == ordered[j] {
        TwiceIsTwo(ordered, i, j);
      }
    }
    forall slug ensures slug in ordered <==> slug in slugs {
      assert slug in ordered <==> slug in multiset(ordered);
      assert slug in slugs <==> slug in multiset(slugs);
    }
  }

  lemma {:induction false} TwiceIsTwo(ordered: seq<Slug>, i: nat, j: nat)
    requires i < j < |ordered| && ordered[i] == ordered[j]
    ensures multiset(ordered)[ordered[i]] >= 2
  {
    assert ordered == ordered[..i] + [ordered[i]] + ordered[i + 1..j] + [ordered[j]] + ordered[j + 1..];
  }

  /** `SELECT DISTINCT … ORDER BY`. */
  method OrderedSet(slugs: set<Slug>) returns (ordered: seq<Slug>)
    ensures StrictlyAscending(ordered) && forall slug :: slug in ordered <==> slug in slugs
  {
    ordered := Ordered(multiset(slugs));
    DistinctAscend(ordered, slugs);
  }

  datatype TopicDetail = TopicDetail(slug: Slug, row: TopicRow, parents: seq<Slug>, children: seq<Slug>, pages: seq<Slug>)

  /** `topic_descendants`: ordered, a topic as often as it has depths. */
  method TopicDescendants(edges: Edges, slug: Slug) returns (slugs: seq<Slug>)
    ensures Ascending(slugs) && forall to :: to in slugs <==> to in Within(edges, slug, MAX_DEPTH)
  {
    var rows := DescendantRows(edges, slug);
    var bag: multiset<Slug> := multiset{};
    var left := rows;
    while left != {}
      invariant left <= rows && forall to :: to in bag <==> exists row :: row in rows - left && row.slug == to
      decreases left
    {
      var row :| row in left;
      left := left - {row};
      bag := bag + multiset{row.slug};
    }
    slugs := Ordered(bag);
    forall to ensures to in slugs <==> to in Within(edges, slug, MAX_DEPTH) {
      assert to in slugs <==> to in multiset(slugs);
      RowsAreWithin(edges, slug, MAX_DEPTH, to);
      assert rows - left == rows;
    }
  }

  lemma {:induction false} RowsAreWithin(edges: Edges, slug: Slug, n: nat, to: Slug)
    ensures (exists row :: row in RowsWithin(edges, slug, n) && row.slug == to) <==> to in Within(edges, slug, n)
  {
    WithinIsSomeLevel(edges, slug, n, to);
    if to in Within(edges, slug, n) {
      var d :| 0 <= d <= n && OnLevel(edges, slug, d, to);
      RowsAreLevels(edges, slug, n, Row(to, d));
      assert Row(to, d) in RowsWithin(edges, slug, n);
    }
    forall row | row in RowsWithin(edges, slug, n) && row.slug == to ensures to in Within(edges, slug, n) {
      RowsAreLevels(edges, slug, n, row);
      assert OnLevel(edges, slug, row.depth, to);
    }
  }

  /** Pages tagged with one of the topics. */
  function PagesTagged(t: Tables, topics: set<Slug>): set<Slug> {
    set row | row in t.pageTopics && row.1 in topics && row.0 in (set page | page in t.pages :: page.slug) :: row.0
  }

  predicate IsPage(t: Tables, slug: Slug) {
    exists page :: page in t.pages && page.slug == slug
  }

  lemma PagesTaggedExactly(t: Tables, topics: set<Slug>)
    ensures forall page :: page in PagesTagged(t, topics) <==> IsPage(t, page) && exists topic :: topic in topics && (page, topic) in t.pageTopics
  {
    forall page | IsPage(t, page) && exists topic :: topic in topics && (page, topic) in t.pageTopics ensures page in PagesTagged(t, topics) {
      var topic :| topic in topics && (page, topic) in t.pageTopics;
      var row := (page, topic);
      assert row in t.pageTopics && row.1 in topics && row.0 in (set page | page in t.pages :: page.slug);
    }
  }

  method PagesForTopics(t: Tables, topics: seq<Slug>) returns (pages: seq<Slug>)
    ensures StrictlyAscending(pages)
    ensures forall page :: page in pages <==> IsPage(t, page) && exists topic :: topic in topics && (page, topic) in t.pageTopics
  {
    if |topics| == 0 {
      return [];
    }
    pages := OrderedSet(PagesTagged(t, set topic | topic in topics));
    PagesTaggedExactly(t, set topic | topic in topics);
  }

  /** `get_topic_detail`: for a known topic its pages are exactly those tagged with a topic of the closure, each once. */
  method GetTopicDetail(t: Tables, slug: Slug, includeDescendants: bool) returns (detail: Option<TopicDetail>)
    ensures detail.None? <==> slug !in t.topics
    ensures detail.Some? ==>
              && detail.value.slug == slug && detail.value.row == t.topics[slug]
              && StrictlyAscending(detail.value.pages) && StrictlyAscending(detail.value.parents) && StrictlyAscending(detail.value.children)
              && (forall p :: p in detail.value.parents <==> (slug, p) in t.topicParents)
              && (forall c :: c in detail.value.children <==> (c, slug) in t.topicParents)
              && (forall page :: page in detail.value.pages <==>
                    IsPage(t, page) && exists topic :: (page, topic) in t.pageTopics
                                                       && if includeDescendants then topic in Within(t.topicParents, slug, MAX_DEPTH) else topic == slug)
  {
    if slug !in t.topics {
      return None;
    }
    var topics := [slug];
    if includeDescendants {
      topics := TopicDescendants(t.topicParents, slug);
    }
    var parents := OrderedSet(set edge | edge in t.topicParents && edge.0 == slug :: edge.1);
    var children := OrderedSet(set edge | edge in t.topicParents && edge.1 == slug :: edge.0);
    var pages := PagesForTopics(t, topics);
    assert (set topic | topic in topics) == if includeDescendants then Within(t.topicParents, slug, MAX_DEPTH) else {slug};
    detail := Some(TopicDetail(slug, t.topics[slug], parents, children, pages));
  }
}
