/** The index database: replacing its rows by the projection of the current sources, and deciding when that is due. */
module IndexProjection {
  import opened Outcomes
  import opened IndexTables

  /** `INSERT OR IGNORE INTO topics`: slugs not yet there get a title made from them. */
  function WithMissing(topics: map<Slug, TopicRow>, slugs: set<Slug>, titleFor: Slug -> string): map<Slug, TopicRow> {
    map slug | slug in topics.Keys + slugs :: if slug in topics then topics[slug] else TopicRow(titleFor(slug), None)
  }

  function RowsFor(slug: Slug, others: set<Slug>): set<(Slug, Slug)> {
    set other | other in others :: (slug, other)
  }

  lemma {:induction false} OneMoreMissing(topics: map<Slug, TopicRow>, slugs: set<Slug>, slug: Slug, titleFor: Slug -> string)
    ensures WithMissing(WithMissing(topics, slugs, titleFor), {slug}, titleFor) == WithMissing(topics, slugs + {slug}, titleFor)
  {
  }

  function AfterDocument(t: Tables, d: Document, titleFor: Slug -> string): Tables {
    Tables(t.pages + PageRows(d), WithMissing(t.topics, Tags(d), titleFor), t.pageTopics + TagRows(d), t.topicParents,
           t.fileRefs + RefRows(d), t.pageSources + SourceRows(d), t.pageLinks + LinkRows(d), t.crossWikiLinks + CrossRows(d),
           t.sections + SectionRows(d), t.fts + FtsRows(d))
  }

  function AfterDefinition(t: Tables, topic: TopicDefinition, titleFor: Slug -> string): Tables {
    t.(topics := WithMissing(t.topics[topic.slug := DefinitionRow(topic, titleFor)], (set parent | parent in topic.parents), titleFor),
       topicParents := t.topicParents + ParentRows(topic))
  }

  function PageSlugs(t: Tables): set<Slug> {
    set page | page in t.pages :: page.slug
  }

  /** The foreign keys: every row of a page references an existing page. */
  predicate RowsHavePages(t: Tables) {
    && (forall r {:trigger r in t.pageTopics} :: r in t.pageTopics ==> r.0 in PageSlugs(t))
    && (forall r {:trigger r in t.fileRefs} :: r in t.fileRefs ==> r.page in PageSlugs(t))
    && (forall r {:trigger r in t.pageSources} :: r in t.pageSources ==> r.page in PageSlugs(t))
    && (forall r {:trigger r in t.pageLinks} :: r in t.pageLinks ==> r.0 in PageSlugs(t))
    && (forall r {:trigger r in t.crossWikiLinks} :: r in t.crossWikiLinks ==> r.0 in PageSlugs(t))
    && (forall r {:trigger r in t.sections} :: r in t.sections ==> r.page in PageSlugs(t))
  }

  /** `DELETE FROM pages`, with `ON DELETE CASCADE` on every table that references a page. */
  function WithoutPages(t: Tables): Tables {
    var gone := PageSlugs(t);
    t.(pages := {},
       pageTopics := (set r | r in t.pageTopics && r.0 !in gone),
       fileRefs := (set r | r in t.fileRefs && r.page !in gone),
       pageSources := (set r | r in t.pageSources && r.page !in gone),
       pageLinks := (set r | r in t.pageLinks && r.0 !in gone),
       crossWikiLinks := (set r | r in t.crossWikiLinks && r.0 !in gone),
       sections := (set r | r in t.sections && r.page !in gone))
  }

  lemma {:induction false} OneMoreDocument(documents: seq<Document>, i: nat, titleFor: Slug -> string)
    requires i < |documents|
    ensures AfterDocument(Projection(documents[..i], [], titleFor), documents[i], titleFor) == Projection(documents[..i + 1], [], titleFor)
  {
    assert documents[..i + 1][..i] == documents[..i];
  }

  lemma {:induction false} OneMoreDefinition(documents: seq<Document>, topics: seq<TopicDefinition>, j: nat, titleFor: Slug -> string)
    requires j < |topics|
    ensures AfterDefinition(Projection(documents, topics[..j], titleFor), topics[j], titleFor) == Projection(documents, topics[..j + 1], titleFor)
  {
    var before, after, last := topics[..j], topics[..j + 1], topics[j];
    assert after[..j] == before;
    var t := AfterDefinition(Projection(documents, before, titleFor), last, titleFor);
    forall slug ensures slug in t.topics <==> slug in TopicTable(documents, after, titleFor) {
    }
    forall slug | slug in t.topics ensures t.topics[slug] == TopicText(slug, after, titleFor) {
      if slug != last.slug && slug !in TopicTable(documents, before, titleFor) {
        NotDefined(slug, before, titleFor);
      }
    }
  }

  lemma {:induction false} NotDefined(slug: Slug, topics: seq<TopicDefinition>, titleFor: Slug -> string)
    requires slug !in Union(topics, Named)
    ensures TopicText(slug, topics, titleFor) == TopicRow(titleFor(slug), None)
  {
    if topics != [] {
      NotDefined(slug, topics[..|topics| - 1], titleFor);
    }
  }

  function SlugsOf(documents: seq<Document>): set<Slug> {
    set i | 0 <= i < |documents| :: documents[i].slug
  }

  lemma {:induction false} RowsAreOwn<R>(documents: seq<Document>, rows: Document -> set<R>, pageOf: R -> Slug)
    requires forall d, r :: r in rows(d) ==> pageOf(r) == d.slug
    ensures forall r :: r in Union(documents, rows) ==> pageOf(r) in SlugsOf(documents)
  {
    forall r | r in Union(documents, rows) ensures pageOf(r) in SlugsOf(documents) {
      InUnion(documents, rows, r);
      var i :| 0 <= i < |documents| && r in rows(documents[i]);
      assert documents[i].slug in SlugsOf(documents);
    }
  }

  lemma {:induction false} PagesAreOfDocuments(documents: seq<Document>, topics: seq<TopicDefinition>, titleFor: Slug -> string)
    ensures PageSlugs(Projection(documents, topics, titleFor)) == SlugsOf(documents)
  {
    var t := Projection(documents, topics, titleFor);
    RowsAreOwn(documents, PageRows, (r: PageRow) => r.slug);
    forall i | 0 <= i < |documents| ensures documents[i].slug in PageSlugs(t) {
      InUnion(documents, PageRows, PageOf(documents[i]));
      assert PageOf(documents[i]) in t.pages;
    }
  }

  lemma {:induction false} ProjectionHasPages(documents: seq<Document>, topics: seq<TopicDefinition>, titleFor: Slug -> string)
    ensures RowsHavePages(Projection(documents, topics, titleFor))
  {
    PagesAreOfDocuments(documents, topics, titleFor);
    RowsAreOwn(documents, TagRows, (r: (Slug, Slug)) => r.0);
    RowsAreOwn(documents, RefRows, (r: FileRefRow) => r.page);
    RowsAreOwn(documents, SourceRows, (r: SourceRow) => r.page);
    RowsAreOwn(documents, LinkRows, (r: (Slug, Slug)) => r.0);
    RowsAreOwn(documents, CrossRows, (r: (Slug, string, Slug)) => r.0);
    RowsAreOwn(documents, SectionRows, (r: SectionRow) => r.page);
  }

  class IndexDatabase {
    var tables: Tables
    var signature: Option<Signature>

    /** Foreign keys hold. */
    predicate Valid()
      reads this
    {
      RowsHavePages(tables)
    }

    constructor ()
      ensures Valid() && tables == NO_TABLES && signature == None
    {
      tables, signature := NO_TABLES, None;
    }

    /** One `INSERT OR IGNORE INTO topics`. */
    method InsertTopic(slug: Slug, titleFor: Slug -> string)
      modifies `tables
      ensures tables == old(tables).(topics := WithMissing(old(tables).topics, {slug}, titleFor))
    {
      if slug !in tables.topics {
        tables := tables.(topics := tables.topics[slug := TopicRow(titleFor(slug), None)]);
      }
      assert tables.topics == WithMissing(old(tables).topics, {slug}, titleFor);
    }

    /** Tags of a document: each a topic, unless it is one, and a row of the page. */
    method InsertTags(d: Document, titleFor: Slug -> string)
      modifies `tables
      ensures tables == old(tables).(topics := WithMissing(old(tables).topics, Tags(d), titleFor),
                                     pageTopics := old(tables).pageTopics + TagRows(d))
    {
      ghost var before := tables;
      ghost var tags: set<Slug> := {};
      assert WithMissing(before.topics, {}, titleFor) == before.topics;
      for k := 0 to |d.topics|
        invariant tags == set topic | topic in d.topics[..k] && topic != ""
        invariant tables.topics == WithMissing(before.topics, tags, titleFor)
        invariant tables.pageTopics == before.pageTopics + RowsFor(d.slug, tags)
        invariant tables == before.(topics := tables.topics, pageTopics := tables.pageTopics)
      {
        var topic := d.topics[k];
        assert d.topics[..k + 1] == d.topics[..k] + [topic];
        if topic == "" {
          continue;
        }
        OneMoreMissing(before.topics, tags, topic, titleFor);
        InsertTopic(topic, titleFor);
        tables := tables.(pageTopics := tables.pageTopics + {(d.slug, topic)});
        tags := tags + {topic};
      }
      assert d.topics[..|d.topics|] == d.topics;
      assert tags == Tags(d) && RowsFor(d.slug, tags) == TagRows(d);
    }

    /** File references of a new page: a path already there is ignored. */
    method InsertFileRefs(d: Document)
      requires forall r :: r in tables.fileRefs ==> r.page != d.slug
      modifies `tables
      ensures tables == old(tables).(fileRefs := old(tables).fileRefs + RefRows(d))
    {
      for k := 0 to |d.fileRefs|
        invariant tables == old(tables).(fileRefs := old(tables).fileRefs + FirstRefs(d, k))
      {
        FirstRefsHave(d, k);
        assert forall r :: r in FirstRefs(d, k) ==> r.page == d.slug;
        if !exists r :: r in tables.fileRefs && r.page == d.slug && r.path == d.fileRefs[k].path {
          tables := tables.(fileRefs := tables.fileRefs + {RefRow(d, k)});
        }
      }
    }

    method InsertSources(d: Document)
      modifies `tables
      ensures tables == old(tables).(pageSources := old(tables).pageSources + SourceRows(d))
    {
      for k := 0 to |d.sources|
        invariant tables == old(tables).(pageSources := old(tables).pageSources + set i | 0 <= i < k :: SourceRow(d.slug, i, d.sources[i]))
      {
        tables := tables.(pageSources := tables.pageSources + {SourceRow(d.slug, k, d.sources[k])});
      }
    }

    method InsertLinks(d: Document)
      modifies `tables
      ensures tables == old(tables).(pageLinks := old(tables).pageLinks + LinkRows(d),
                                     crossWikiLinks := old(tables).crossWikiLinks + CrossRows(d))
    {
      for k := 0 to |d.pageLinks|
        invariant tables == old(tables).(pageLinks := old(tables).pageLinks + set target | target in d.pageLinks[..k] :: (d.slug, target))
      {
        assert d.pageLinks[..k + 1] == d.pageLinks[..k] + [d.pageLinks[k]];
        tables := tables.(pageLinks := tables.pageLinks + {(d.slug, d.pageLinks[k])});
      }
      assert d.pageLinks[..|d.pageLinks|] == d.pageLinks;
      ghost var linked := tables;
      for k := 0 to |d.crossWikiLinks|
        invariant tables == linked.(crossWikiLinks := linked.crossWikiLinks + set link | link in d.crossWikiLinks[..k] :: (d.slug, link.0, link.1))
      {
        assert d.crossWikiLinks[..k + 1] == d.crossWikiLinks[..k] + [d.crossWikiLinks[k]];
        tables := tables.(crossWikiLinks := tables.crossWikiLinks + {(d.slug, d.crossWikiLinks[k].0, d.crossWikiLinks[k].1)});
      }
      assert d.crossWikiLinks[..|d.crossWikiLinks|] == d.crossWikiLinks;
    }

    method InsertSections(d: Document)
      modifies `tables
      ensures tables == old(tables).(sections := old(tables).sections + SectionRows(d), fts := old(tables).fts + FtsRows(d))
    {
      for k := 0 to |d.sections|
        invariant tables == old(tables).(
                    sections := old(tables).sections + (set i | 0 <= i < k :: SectionRow(d.slug, i, d.sections[i].heading, d.sections[i].body)),
                    fts := old(tables).fts + (set i | 0 <= i < k :: FtsRow(d.slug, i, d.title, d.sections[i].heading, d.sections[i].body)))
      {
        tables := tables.(sections := tables.sections + {SectionRow(d.slug, k, d.sections[k].heading, d.sections[k].body)},
                          fts := tables.fts + {FtsRow(d.slug, k, d.title, d.sections[k].heading, d.sections[k].body)});
      }
    }

    /** `insert_document`, for a page the database does not have. */
    method InsertDocument(d: Document, titleFor: Slug -> string)
      requires Valid() && d.slug !in PageSlugs(tables)
      modifies `tables
      ensures tables == AfterDocument(old(tables), d, titleFor)
    {
      tables := tables.(pages := tables.pages + {PageOf(d)});
      InsertSections(d);
      InsertTags(d, titleFor);
      InsertFileRefs(d);
      InsertSources(d);
      InsertLinks(d);
    }

    /** `insert_topic_definition`: an upsert of the topic itself, then its parents. */
    method InsertTopicDefinition(topic: TopicDefinition, titleFor: Slug -> string)
      modifies `tables
      ensures tables == AfterDefinition(old(tables), topic, titleFor)
    {
      tables := tables.(topics := tables.topics[topic.slug := DefinitionRow(topic, titleFor)]);
      InsertParents(topic, titleFor);
    }

    /** Parents of a topic: each a topic, unless it is one, and an edge, unless it is the topic itself. */
    method InsertParents(topic: TopicDefinition, titleFor: Slug -> string)
      modifies `tables
      ensures tables == old(tables).(topics := WithMissing(old(tables).topics, (set parent | parent in topic.parents), titleFor),
                                     topicParents := old(tables).topicParents + ParentRows(topic))
    {
      ghost var before := tables;
      ghost var parents: set<Slug> := {};
      assert WithMissing(before.topics, {}, titleFor) == before.topics;
      for k := 0 to |topic.parents|
        invariant parents == set parent | parent in topic.parents[..k]
        invariant tables.topics == WithMissing(before.topics, parents, titleFor)
        invariant tables.topicParents == before.topicParents + RowsFor(topic.slug, parents - {topic.slug})
        invariant tables == before.(topics := tables.topics, topicParents := tables.topicParents)
      {
        var parent := topic.parents[k];
        assert topic.parents[..k + 1] == topic.parents[..k] + [parent];
        OneMoreMissing(before.topics, parents, parent, titleFor);
        InsertTopic(parent, titleFor);
        if parent != topic.slug {
          tables := tables.(topicParents := tables.topicParents + {(topic.slug, parent)});
        }
        parents := parents + {parent};
      }
      assert topic.parents[..|topic.parents|] == topic.parents;
      assert RowsFor(topic.slug, parents - {topic.slug}) == ParentRows(topic);
    }

    /** `replace_documents`: whatever rows were there, afterwards there are those of the given sources and no others. */
    method ReplaceDocuments(s: Sources, titleFor: Slug -> string)
      requires Valid() && DistinctSlugs(s.documents)
      modifies this
      ensures Valid() && tables == Projection(s.documents, s.topics, titleFor) && signature == Some(SignatureOf(s))
    {
      tables := WithoutPages(tables).(fts := {}, topicParents := {}, topics := map[]);
      NothingIsLeft(old(tables));
      for i := 0 to |s.documents|
        invariant tables == Projection(s.documents[..i], [], titleFor)
      {
        ProjectionHasPages(s.documents[..i], [], titleFor);
        PagesAreOfDocuments(s.documents[..i], [], titleFor);
        InsertDocument(s.documents[i], titleFor);
        OneMoreDocument(s.documents, i, titleFor);
      }
      assert s.documents[..|s.documents|] == s.documents;
      for j := 0 to |s.topics|
        invariant tables == Projection(s.documents, s.topics[..j], titleFor)
      {
        InsertTopicDefinition(s.topics[j], titleFor);
        OneMoreDefinition(s.documents, s.topics, j, titleFor);
      }
      assert s.topics[..|s.topics|] == s.topics;
      ProjectionHasPages(s.documents, s.topics, titleFor);
      signature := Some(SignatureOf(s));
    }

    /** `IndexStore.refresh`: the database is left alone exactly when it carries the signature of the current sources. */
    method Refresh(s: Sources, titleFor: Slug -> string) returns (changed: nat)
      requires Valid() && DistinctSlugs(s.documents)
      modifies this
      ensures Valid() && signature == Some(SignatureOf(s))
      ensures tables == if old(signature) == Some(SignatureOf(s)) then old(tables) else Projection(s.documents, s.topics, titleFor)
      ensures changed == if old(signature) == Some(SignatureOf(s)) then 0 else |s.documents|
      ensures State(tables, signature) == After(State(old(tables), old(signature)), Visit.Refresh(s), titleFor)
    {
      if signature == Some(SignatureOf(s)) {
        return 0;
      }
      ReplaceDocuments(s, titleFor);
      changed := |s.documents|;
    }

    /** `IndexStore.rebuild`. */
    method Rebuild(s: Sources, titleFor: Slug -> string) returns (changed: nat)
      requires Valid() && DistinctSlugs(s.documents)
      modifies this
      ensures Valid() && signature == Some(SignatureOf(s)) && tables == Projection(s.documents, s.topics, titleFor)
      ensures changed == |s.documents|
      ensures State(tables, signature) == After(State(old(tables), old(signature)), Visit.Rebuild(s), titleFor)
    {
      ReplaceDocuments(s, titleFor);
      changed := |s.documents|;
    }
  }

  function FirstRefs(d: Document, k: nat): set<FileRefRow>
    requires k <= |d.fileRefs|
  {
    set i | 0 <= i < k && FirstOfPath(d.fileRefs, i) :: RefRow(d, i)
  }

  lemma {:induction false} FirstRefsHave(d: Document, k: nat)
    requires k < |d.fileRefs|
    ensures (exists r :: r in FirstRefs(d, k) && r.path == d.fileRefs[k].path) <==> !FirstOfPath(d.fileRefs, k)
  {
    if !FirstOfPath(d.fileRefs, k) {
      var j :| 0 <= j < k && d.fileRefs[j].path == d.fileRefs[k].path;
      var first := FirstOf(d.fileRefs, j);
      assert first < k;
      assert RefRow(d, first) in FirstRefs(d, k);
    }
  }

  lemma {:induction false} NothingIsLeft(t: Tables)
    requires RowsHavePages(t)
    ensures WithoutPages(t).(fts := {}, topicParents := {}, topics := map[]) == NO_TABLES
    ensures forall titleFor: Slug -> string :: NO_TABLES == Projection([], [], titleFor)
  {
    var w := WithoutPages(t);
    assert w.pageTopics == {} && w.fileRefs == {} && w.pageSources == {} && w.pageLinks == {} && w.crossWikiLinks == {} && w.sections == {};
  }

  // ---- Whole histories ------------------------------------------------------------------------------------

  datatype State = State(tables: Tables, signature: Option<Signature>)

  datatype Visit = Refresh(sources: Sources) | Rebuild(sources: Sources)

  function After(s: State, visit: Visit, titleFor: Slug -> string): State {
    var now := SignatureOf(visit.sources);
    if visit.Refresh? && s.signature == Some(now) then s
    else State(Projection(visit.sources.documents, visit.sources.topics, titleFor), Some(now))
  }

  function Reached(visits: seq<Visit>, titleFor: Slug -> string): State {
    if visits == [] then State(NO_TABLES, None) else After(Reached(visits[..|visits| - 1], titleFor), visits[|visits| - 1], titleFor)
  }

  /** The same page but for the time it was touched. */
  predicate SameButTime(a: Document, b: Document) {
    a.(updatedAt := 0) == b.(updatedAt := 0)
  }

  /** What the signature relies on: path and content hash fix a page's indexed fields, and the topics hash the definitions. */
  ghost predicate HashesDecide(visits: seq<Visit>) {
    forall a, b :: 0 <= a < |visits| && 0 <= b < |visits| ==> SourcesAgree(visits[a].sources, visits[b].sources)
  }

  ghost predicate SourcesAgree(a: Sources, b: Sources) {
    && (forall i, j :: 0 <= i < |a.documents| && 0 <= j < |b.documents| && a.documents[i].slug == b.documents[j].slug
          && a.documents[i].relativePath == b.documents[j].relativePath && a.documents[i].contentHash == b.documents[j].contentHash
          ==> SameButTime(a.documents[i], b.documents[j]))
    && (a.topicsHash == b.topicsHash ==> a.topics == b.topics)
  }

  /** The tables without the pages' times. */
  function Timeless(t: Tables): Tables {
    t.(pages := set page | page in t.pages :: page.(updatedAt := 0))
  }

  predicate Alike(a: seq<Document>, b: seq<Document>) {
    |a| == |b| && forall i :: 0 <= i < |a| ==> SameButTime(a[i], b[i])
  }

  lemma {:induction false} AlikeUnion<R>(a: seq<Document>, b: seq<Document>, rows: Document -> set<R>)
    requires Alike(a, b) && forall d, e :: SameButTime(d, e) ==> rows(d) == rows(e)
    ensures Union(a, rows) == Union(b, rows)
  {
    if a != [] {
      var n := |a| - 1;
      assert SameButTime(a[n], b[n]);
      AlikeUnion(a[..n], b[..n], rows);
    }
  }

  lemma {:induction false} AlikePages(a: seq<Document>, b: seq<Document>)
    requires Alike(a, b)
    ensures (set page | page in Union(a, PageRows) :: page.(updatedAt := 0)) == (set page | page in Union(b, PageRows) :: page.(updatedAt := 0))
  {
    if a != [] {
      var n := |a| - 1;
      assert SameButTime(a[n], b[n]);
      AlikePages(a[..n], b[..n]);
      assert PageOf(a[n]).(updatedAt := 0) == PageOf(b[n]).(updatedAt := 0);
      TimesForgotten(Union(a[..n], PageRows), PageOf(a[n]));
      TimesForgotten(Union(b[..n], PageRows), PageOf(b[n]));
    }
  }

  lemma {:induction false} TimesForgotten(pages: set<PageRow>, page: PageRow)
    ensures (set p | p in pages + {page} :: p.(updatedAt := 0)) == (set p | p in pages :: p.(updatedAt := 0)) + {page.(updatedAt := 0)}
  {
  }

  lemma {:induction false} AlikeProjections(a: seq<Document>, b: seq<Document>, topics: seq<TopicDefinition>, titleFor: Slug -> string)
    requires Alike(a, b)
    ensures Timeless(Projection(a, topics, titleFor)) == Timeless(Projection(b, topics, titleFor))
  {
    AlikePages(a, b);
    AlikeUnion(a, b, Tags);
    AlikeUnion(a, b, TagRows);
    AlikeUnion(a, b, RefRows);
    AlikeUnion(a, b, SourceRows);
    AlikeUnion(a, b, LinkRows);
    AlikeUnion(a, b, CrossRows);
    AlikeUnion(a, b, SectionRows);
    AlikeUnion(a, b, FtsRows);
  }

  lemma {:induction false} SameSignatureIsAlike(a: Sources, b: Sources, titleFor: Slug -> string)
    requires SignatureOf(a) == SignatureOf(b) && SourcesAgree(a, b)
    ensures Timeless(Projection(a.documents, a.topics, titleFor)) == Timeless(Projection(b.documents, b.topics, titleFor))
  {
    var pa, pb := SignatureOf(a).pages, SignatureOf(b).pages;
    assert |pa| == |a.documents| && |pb| == |b.documents|;
    forall i | 0 <= i < |a.documents| ensures SameButTime(a.documents[i], b.documents[i]) {
      assert pa[i] == pb[i];
    }
    AlikeProjections(a.documents, b.documents, a.topics, titleFor);
  }

  /** After any sequence of refreshes and rebuilds the index is the projection of the sources as they were last seen,
      `updated_at` aside, with the signature of those sources, provided that hashes decide. */
  lemma {:induction false} IndexIsCurrent(visits: seq<Visit>, titleFor: Slug -> string)
    requires visits != [] && HashesDecide(visits)
    ensures var s, current := Reached(visits, titleFor), visits[|visits| - 1].sources;
            && s.signature == Some(SignatureOf(current))
            && Timeless(s.tables) == Timeless(Projection(current.documents, current.topics, titleFor))
  {
    var init, last := visits[..|visits| - 1], visits[|visits| - 1];
    if init != [] {
      assert forall i :: 0 <= i < |init| ==> init[i] == visits[i];
      IndexIsCurrent(init, titleFor);
      var before := init[|init| - 1].sources;
      assert before == visits[|visits| - 2].sources;
      if SignatureOf(before) == SignatureOf(last.sources) {
        SameSignatureIsAlike(before, last.sources, titleFor);
      }
    }
  }

  // ---- Loading --------------------------------------------------------------------------------------------

  function Loaded(files: seq<Option<Document>>): seq<Document> {
    if files == [] then []
    else Loaded(files[..|files| - 1]) + if files[|files| - 1].Some? then [files[|files| - 1].value] else []
  }

  /** Two readable pages under one route. */
  predicate SameRoute(files: seq<Option<Document>>, i: int, j: int) {
    0 <= i < j < |files| && files[i].Some? && files[j].Some? && files[i].value.slug == files[j].value.slug
  }

  /** `pages` are the files that could be read, all of them and in order, each at its place. */
  predicate ReadAt(files: seq<Option<Document>>, pages: seq<Document>, at: seq<nat>) {
    && |at| == |pages| && (forall k :: 0 <= k < |at| ==> at[k] < |files| && files[at[k]] == Some(pages[k]))
    && (forall a, b :: 0 <= a < b < |at| ==> at[a] < at[b])
    && (forall i :: 0 <= i < |files| && files[i].Some? ==> i in at)
  }

  lemma ReadOneMore(files: seq<Option<Document>>, file: Option<Document>, pages: seq<Document>, at: seq<nat>)
    requires ReadAt(files, pages, at)
    ensures file.None? ==> ReadAt(files + [file], pages, at)
    ensures file.Some? ==> ReadAt(files + [file], pages + [file.value], at + [|files|])
  {
    var more := files + [file];
    assert forall k :: 0 <= k < |at| ==> more[at[k]] == files[at[k]];
    forall i | 0 <= i < |files| && more[i].Some? ensures i in at {
      assert more[i] == files[i];
    }
  }

  lemma {:induction false} LoadedAt(files: seq<Option<Document>>) returns (at: seq<nat>)
    ensures ReadAt(files, Loaded(files), at)
  {
    if files == [] {
      return [];
    }
    var init, file := files[..|files| - 1], files[|files| - 1];
    var before := LoadedAt(init);
    ReadOneMore(init, file, Loaded(init), before);
    assert files == init + [file];
    at := if file.Some? then before + [|init|] else before;
    assert Loaded(files) == if file.Some? then Loaded(init) + [file.value] else Loaded(init);
  }

  /** `load_documents`: an error exactly when two pages have one route, else all pages that could be read, in order. */
  method LoadDocuments(files: seq<Option<Document>>) returns (documents: Result<seq<Document>, Slug>, skipped: nat)
    ensures documents.Err? <==> exists i, j :: SameRoute(files, i, j)
    ensures documents.Err? ==> exists i, j :: SameRoute(files, i, j) && files[i].value.slug == documents.error
    ensures documents.Ok? ==> documents.value == Loaded(files) && skipped + |documents.value| == |files|
    ensures documents.Ok? ==> exists at :: ReadAt(files, documents.value, at)
  {
    var pages: seq<Document> := [];
    var seen: set<Slug> := {};
    skipped := 0;
    for i := 0 to |files|
      invariant pages == Loaded(files[..i]) && DistinctSlugs(pages) && skipped + |pages| == i
      invariant seen == SlugsOf(pages)
    {
      assert files[..i + 1][..i] == files[..i];
      if files[i].None? {
        skipped := skipped + 1;
        continue;
      }
      var page := files[i].value;
      assert Loaded(files[..i + 1]) == pages + [page];
      if page.slug in seen {
        ghost var k :| 0 <= k < |pages| && pages[k].slug == page.slug;
        assert (pages + [page])[k].slug == (pages + [page])[|pages|].slug;
        RouteIsTaken(files, i, k);
        return Err(page.slug), skipped;
      }
      OneMoreSlug(pages, page);
      seen := seen + {page.slug};
      pages := pages + [page];
    }
    assert files[..|files|] == files;
    RoutesDiffer(files);
    documents := Ok(pages);
  }

  lemma {:induction false} OneMoreSlug(pages: seq<Document>, page: Document)
    ensures SlugsOf(pages + [page]) == SlugsOf(pages) + {page.slug}
    ensures DistinctSlugs(pages) && page.slug !in SlugsOf(pages) ==> DistinctSlugs(pages + [page])
  {
    var more := pages + [page];
    assert more[|pages|] == page;
    assert forall i :: 0 <= i < |pages| ==> more[i] == pages[i] && pages[i].slug in SlugsOf(pages);
  }

  /** A page of the loaded ones has the route of a readable file after them. */
  lemma RouteIsTaken(files: seq<Option<Document>>, i: nat, k: nat)
    requires i < |files| && files[i].Some? && k < |Loaded(files[..i])| && Loaded(files[..i])[k].slug == files[i].value.slug
    ensures exists a :: SameRoute(files, a, i)
  {
    var at := LoadedAt(files[..i]);
    assert files[at[k]] == files[..i][at[k]] == Some(Loaded(files[..i])[k]);
    assert SameRoute(files, at[k], i);
  }

  lemma {:induction false} RoutesDiffer(files: seq<Option<Document>>)
    requires DistinctSlugs(Loaded(files))
    ensures exists at :: ReadAt(files, Loaded(files), at)
    ensures !exists i, j :: SameRoute(files, i, j)
  {
    var at := LoadedAt(files);
    forall i, j ensures !SameRoute(files, i, j) {
      if SameRoute(files, i, j) {
        assert i in at && j in at;
        var a, b :| 0 <= a < |at| && 0 <= b < |at| && at[a] == i && at[b] == j;
      }
    }
  }
}
