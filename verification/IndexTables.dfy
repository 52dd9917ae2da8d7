/** What the wiki index is made of: page documents, topic definitions, and the rows each of them stands for. */
module IndexTables {
  import opened Outcomes

  type Slug = string

  datatype FileReference = FileReference(path: string, originalPath: string, isDir: bool)

  datatype PageSource = PageSource(sourceId: string, sourceType: string, target: Option<string>, title: Option<string>,
                                   retrievedAt: Option<string>, note: Option<string>)

  /** A section's id is its ordinal, zero padded. */
  datatype Section = Section(heading: string, body: string)

  /** A page as loaded; its sections are what `project_sections` makes of its body and title. */
  datatype Document = Document(
    slug: Slug,
    title: string,
    summary: Option<string>,
    filePath: string,
    relativePath: string,
    contentHash: string,
    updatedAt: int,
    topics: seq<Slug>,
    sources: seq<PageSource>,
    fileRefs: seq<FileReference>,
    pageLinks: seq<Slug>,
    crossWikiLinks: seq<(string, Slug)>,
    sections: seq<Section>,
    body: string)

  /** An absent or empty title is no title. */
  datatype TopicDefinition = TopicDefinition(slug: Slug, title: Option<string>, description: Option<string>, parents: seq<Slug>)

  datatype Fingerprint = Fingerprint(slug: Slug, relativePath: string, contentHash: string)

  datatype Signature = Signature(pages: seq<Fingerprint>, topicsHash: string, filesSeen: nat, filesSkipped: nat)

  datatype Sources = Sources(documents: seq<Document>, topics: seq<TopicDefinition>, topicsHash: string, filesSeen: nat, filesSkipped: nat)

  datatype PageRow = PageRow(slug: Slug, title: string, summary: Option<string>, filePath: string, contentHash: string,
                             updatedAt: int, body: string)
  datatype TopicRow = TopicRow(title: string, description: Option<string>)
  datatype FileRefRow = FileRefRow(page: Slug, path: string, originalPath: string, isDir: bool)
  datatype SourceRow = SourceRow(page: Slug, order: nat, source: PageSource)
  datatype SectionRow = SectionRow(page: Slug, ordinal: nat, heading: string, body: string)
  datatype FtsRow = FtsRow(page: Slug, ordinal: nat, pageTitle: string, heading: string, body: string)

  datatype Tables = Tables(
    pages: set<PageRow>,
    topics: map<Slug, TopicRow>,
    pageTopics: set<(Slug, Slug)>,
    topicParents: set<(Slug, Slug)>,
    fileRefs: set<FileRefRow>,
    pageSources: set<SourceRow>,
    pageLinks: set<(Slug, Slug)>,
    crossWikiLinks: set<(Slug, string, Slug)>,
    sections: set<SectionRow>,
    fts: set<FtsRow>)

  const NO_TABLES := Tables({}, map[], {}, {}, {}, {}, {}, {}, {}, {})

  // ---- The rows of one document -----------------------------------------------------------------------

  function PageOf(d: Document): PageRow {
    PageRow(d.slug, d.title, d.summary, d.filePath, d.contentHash, d.updatedAt, d.body)
  }

  function PageRows(d: Document): set<PageRow> {
    {PageOf(d)}
  }

  function TagRows(d: Document): set<(Slug, Slug)> {
    set topic | topic in d.topics && topic != "" :: (d.slug, topic)
  }

  function Tags(d: Document): set<Slug> {
    set topic | topic in d.topics && topic != ""
  }

  /** Of several references to one path the first is kept. */
  predicate FirstOfPath(refs: seq<FileReference>, i: nat) {
    i < |refs| && forall j :: 0 <= j < i ==> refs[j].path != refs[i].path
  }

  function RefRow(d: Document, i: nat): FileRefRow
    requires i < |d.fileRefs|
  {
    FileRefRow(d.slug, d.fileRefs[i].path, d.fileRefs[i].originalPath, d.fileRefs[i].isDir)
  }

  function RefRows(d: Document): set<FileRefRow> {
    set i | 0 <= i < |d.fileRefs| && FirstOfPath(d.fileRefs, i) :: RefRow(d, i)
  }

  function SourceRows(d: Document): set<SourceRow> {
    set i | 0 <= i < |d.sources| :: SourceRow(d.slug, i, d.sources[i])
  }

  function LinkRows(d: Document): set<(Slug, Slug)> {
    set target | target in d.pageLinks :: (d.slug, target)
  }

  function CrossRows(d: Document): set<(Slug, string, Slug)> {
    set link | link in d.crossWikiLinks :: (d.slug, link.0, link.1)
  }

  function SectionRows(d: Document): set<SectionRow> {
    set i | 0 <= i < |d.sections| :: SectionRow(d.slug, i, d.sections[i].heading, d.sections[i].body)
  }

  function FtsRows(d: Document): set<FtsRow> {
    set i | 0 <= i < |d.sections| :: FtsRow(d.slug, i, d.title, d.sections[i].heading, d.sections[i].body)
  }

  // ---- The rows of the topic definitions ----------------------------------------------------------------

  function ParentRows(t: TopicDefinition): set<(Slug, Slug)> {
    set parent | parent in t.parents && parent != t.slug :: (t.slug, parent)
  }

  function Named(t: TopicDefinition): set<Slug> {
    {t.slug} + set parent | parent in t.parents
  }

  function DefinitionRow(t: TopicDefinition, titleFor: Slug -> string): TopicRow {
    TopicRow(if t.title.Some? && t.title.value != "" then t.title.value else titleFor(t.slug), t.description)
  }

  /** The text of a topic: its last definition's, or a title made from its slug. */
  function TopicText(slug: Slug, topics: seq<TopicDefinition>, titleFor: Slug -> string): TopicRow {
    if topics == [] then TopicRow(titleFor(slug), None)
    else
      var last := topics[|topics| - 1];
      if last.slug == slug then DefinitionRow(last, titleFor) else TopicText(slug, topics[..|topics| - 1], titleFor)
  }

  // ---- The projection -----------------------------------------------------------------------------------

  /** The rows all items of a list stand for. */
  function Union<T, R>(items: seq<T>, rows: T -> set<R>): set<R> {
    if items == [] then {} else Union(items[..|items| - 1], rows) + rows(items[|items| - 1])
  }

  lemma {:induction false} InUnion<T, R>(items: seq<T>, rows: T -> set<R>, row: R)
    ensures row in Union(items, rows) <==> exists i :: 0 <= i < |items| && row in rows(items[i])
  {
    if items != [] {
      var init := items[..|items| - 1];
      InUnion(init, rows, row);
      assert forall i :: 0 <= i < |init| ==> init[i] == items[i];
    }
  }

  /** Tags, defined topics and parents, however they came in; a definition's text wins. */
  function TopicTable(documents: seq<Document>, topics: seq<TopicDefinition>, titleFor: Slug -> string): map<Slug, TopicRow> {
    map slug | slug in Union(documents, Tags) + Union(topics, Named) :: TopicText(slug, topics, titleFor)
  }

  function Projection(documents: seq<Document>, topics: seq<TopicDefinition>, titleFor: Slug -> string): Tables {
    Tables(Union(documents, PageRows), TopicTable(documents, topics, titleFor), Union(documents, TagRows), Union(topics, ParentRows),
           Union(documents, RefRows), Union(documents, SourceRows), Union(documents, LinkRows), Union(documents, CrossRows),
           Union(documents, SectionRows), Union(documents, FtsRows))
  }

  function SignatureOf(s: Sources): Signature {
    Signature(seq(|s.documents|, i requires 0 <= i < |s.documents| =>
                Fingerprint(s.documents[i].slug, s.documents[i].relativePath, s.documents[i].contentHash)),
              s.topicsHash, s.filesSeen, s.filesSkipped)
  }

  predicate DistinctSlugs(documents: seq<Document>) {
    forall i, j :: 0 <= i < j < |documents| ==> documents[i].slug != documents[j].slug
  }

  // ---- What the projection says ---------------------------------------------------------------------------

  /** The last definition of a slug. */
  predicate LastDefines(topics: seq<TopicDefinition>, k: nat, slug: Slug) {
    k < |topics| && topics[k].slug == slug && forall later :: k < later < |topics| ==> topics[later].slug != slug
  }

  /** The row says what the definition says: its title if it has one that is not empty, else the title made from its slug, and its
      description. */
  predicate SaysDefinition(row: TopicRow, topic: TopicDefinition, titleFor: Slug -> string) {
    && (topic.title.Some? && topic.title.value != "" ==> row.title == topic.title.value)
    && (topic.title.None? || topic.title.value == "" ==> row.title == titleFor(topic.slug))
    && row.description == topic.description
  }

  predicate Defined(slug: Slug, topics: seq<TopicDefinition>) {
    exists k :: 0 <= k < |topics| && topics[k].slug == slug
  }

  lemma {:induction false} LastDefinition(slug: Slug, topics: seq<TopicDefinition>, titleFor: Slug -> string) returns (k: nat)
    requires Defined(slug, topics)
    ensures LastDefines(topics, k, slug) && SaysDefinition(TopicText(slug, topics, titleFor), topics[k], titleFor)
  {
    var init, n := topics[..|topics| - 1], |topics| - 1;
    if topics[n].slug == slug {
      k := n;
    } else {
      var some :| 0 <= some < |topics| && topics[some].slug == slug;
      assert init[some].slug == slug;
      k := LastDefinition(slug, init, titleFor);
      assert init[k] == topics[k];
    }
  }

  lemma {:induction false} TopicTextIsLast(slug: Slug, topics: seq<TopicDefinition>, titleFor: Slug -> string)
    ensures Defined(slug, topics) ==>
              exists k: nat :: LastDefines(topics, k, slug) && SaysDefinition(TopicText(slug, topics, titleFor), topics[k], titleFor)
    ensures !Defined(slug, topics) ==> TopicText(slug, topics, titleFor) == TopicRow(titleFor(slug), None)
  {
    if Defined(slug, topics) {
      var k := LastDefinition(slug, topics, titleFor);
    } else if topics != [] {
      var init := topics[..|topics| - 1];
      assert forall k :: 0 <= k < |init| ==> init[k] == topics[k];
      TopicTextIsLast(slug, init, titleFor);
    }
  }

  lemma {:induction false} TopicRowsAreTold(documents: seq<Document>, topics: seq<TopicDefinition>, titleFor: Slug -> string, slug: Slug)
    ensures var t := Projection(documents, topics, titleFor);
            && (Defined(slug, topics) ==>
                  slug in t.topics && exists k: nat :: LastDefines(topics, k, slug) && SaysDefinition(t.topics[slug], topics[k], titleFor))
            && (slug in t.topics && !Defined(slug, topics) ==> t.topics[slug] == TopicRow(titleFor(slug), None))
  {
    TopicTextIsLast(slug, topics, titleFor);
    InUnion(topics, Named, slug);
    if Defined(slug, topics) {
      var k :| 0 <= k < |topics| && topics[k].slug == slug;
      assert slug in Named(topics[k]);
    }
  }

  /** The topics table has exactly the tags, the defined topics and the parents, each defined one with its last definition's
      text; no topic is its own parent, and both ends of every parent edge are topics. */
  lemma {:induction false} TopicsAreComplete(documents: seq<Document>, topics: seq<TopicDefinition>, titleFor: Slug -> string, slug: Slug)
    ensures var t := Projection(documents, topics, titleFor);
            && (slug in t.topics <==>
                  (exists i :: 0 <= i < |documents| && slug in documents[i].topics && slug != "")
                  || (exists k :: 0 <= k < |topics| && (topics[k].slug == slug || slug in topics[k].parents)))
            && (Defined(slug, topics) ==>
                  slug in t.topics && exists k: nat :: LastDefines(topics, k, slug) && SaysDefinition(t.topics[slug], topics[k], titleFor))
            && (slug in t.topics && !Defined(slug, topics) ==> t.topics[slug] == TopicRow(titleFor(slug), None))
            && (slug, slug) !in t.topicParents
            && (forall edge :: edge in t.topicParents ==> edge.0 in t.topics && edge.1 in t.topics)
  {
    InUnion(documents, Tags, slug);
    InUnion(topics, Named, slug);
    InUnion(topics, ParentRows, (slug, slug));
    TopicRowsAreTold(documents, topics, titleFor, slug);
    assert forall i :: 0 <= i < |documents| ==> (slug in Tags(documents[i]) <==> slug in documents[i].topics && slug != "");
    assert forall k :: 0 <= k < |topics| ==> (slug in Named(topics[k]) <==> topics[k].slug == slug || slug in topics[k].parents);
    var t := Projection(documents, topics, titleFor);
    forall edge | edge in t.topicParents ensures edge.0 in t.topics && edge.1 in t.topics {
      InUnion(topics, ParentRows, edge);
      var k :| 0 <= k < |topics| && edge in ParentRows(topics[k]);
      InUnion(topics, Named, edge.0);
      InUnion(topics, Named, edge.1);
      assert edge.0 in Named(topics[k]) && edge.1 in Named(topics[k]);
    }
  }

  // ---- The rows in the fields of the documents -----------------------------------------------------------

  predicate SaysPage(row: PageRow, d: Document) {
    row.slug == d.slug && row.title == d.title && row.summary == d.summary && row.filePath == d.filePath
    && row.contentHash == d.contentHash && row.updatedAt == d.updatedAt && row.body == d.body
  }

  predicate SaysSection(row: SectionRow, d: Document) {
    row.page == d.slug && row.ordinal < |d.sections| && row.heading == d.sections[row.ordinal].heading && row.body == d.sections[row.ordinal].body
  }

  predicate SaysFts(row: FtsRow, d: Document) {
    row.page == d.slug && row.pageTitle == d.title
    && row.ordinal < |d.sections| && row.heading == d.sections[row.ordinal].heading && row.body == d.sections[row.ordinal].body
  }

  predicate SaysSource(row: SourceRow, d: Document) {
    row.page == d.slug && row.order < |d.sources| && row.source == d.sources[row.order]
  }

  /** The row of the first reference to its path. */
  predicate SaysReference(row: FileRefRow, d: Document) {
    row.page == d.slug && exists i :: 0 <= i < |d.fileRefs| && row.path == d.fileRefs[i].path && row.originalPath == d.fileRefs[i].originalPath
                                      && row.isDir == d.fileRefs[i].isDir && forall j :: 0 <= j < i ==> d.fileRefs[j].path != row.path
  }

  /** The page, section, search and source rows are exactly those that say what some document says. */
  lemma {:induction false} TextRowsAreTold(documents: seq<Document>, topics: seq<TopicDefinition>, titleFor: Slug -> string)
    ensures var t := Projection(documents, topics, titleFor);
            && (forall row :: row in t.pages <==> exists i :: 0 <= i < |documents| && SaysPage(row, documents[i]))
            && (forall row :: row in t.sections <==> exists i :: 0 <= i < |documents| && SaysSection(row, documents[i]))
            && (forall row :: row in t.fts <==> exists i :: 0 <= i < |documents| && SaysFts(row, documents[i]))
            && (forall row :: row in t.pageSources <==> exists i :: 0 <= i < |documents| && SaysSource(row, documents[i]))
  {
    var t := Projection(documents, topics, titleFor);
    forall row ensures row in t.pages <==> exists i :: 0 <= i < |documents| && SaysPage(row, documents[i]) {
      InUnion(documents, PageRows, row);
      assert forall i :: 0 <= i < |documents| ==> (row in PageRows(documents[i]) <==> SaysPage(row, documents[i]));
    }
    forall row ensures row in t.sections <==> exists i :: 0 <= i < |documents| && SaysSection(row, documents[i]) {
      InUnion(documents, SectionRows, row);
      assert forall i :: 0 <= i < |documents| ==> (row in SectionRows(documents[i]) <==> SaysSection(row, documents[i]));
    }
    forall row ensures row in t.fts <==> exists i :: 0 <= i < |documents| && SaysFts(row, documents[i]) {
      InUnion(documents, FtsRows, row);
      assert forall i :: 0 <= i < |documents| ==> (row in FtsRows(documents[i]) <==> SaysFts(row, documents[i]));
    }
    forall row ensures row in t.pageSources <==> exists i :: 0 <= i < |documents| && SaysSource(row, documents[i]) {
      InUnion(documents, SourceRows, row);
      assert forall i :: 0 <= i < |documents| ==> (row in SourceRows(documents[i]) <==> SaysSource(row, documents[i]));
    }
  }

  /** And the tags, links and references are exactly those the documents and definitions name. */
  lemma {:induction false} LinkRowsAreTold(documents: seq<Document>, topics: seq<TopicDefinition>, titleFor: Slug -> string)
    ensures var t := Projection(documents, topics, titleFor);
            && (forall page, topic :: (page, topic) in t.pageTopics <==>
                  exists i :: 0 <= i < |documents| && documents[i].slug == page && topic in documents[i].topics && topic != "")
            && (forall page, to :: (page, to) in t.pageLinks <==>
                  exists i :: 0 <= i < |documents| && documents[i].slug == page && to in documents[i].pageLinks)
            && (forall page, wiki, to :: (page, wiki, to) in t.crossWikiLinks <==>
                  exists i :: 0 <= i < |documents| && documents[i].slug == page && (wiki, to) in documents[i].crossWikiLinks)
            && (forall child, parent :: (child, parent) in t.topicParents <==>
                  exists k :: 0 <= k < |topics| && topics[k].slug == child && parent in topics[k].parents && parent != child)
            && (forall row :: row in t.fileRefs <==> exists i :: 0 <= i < |documents| && SaysReference(row, documents[i]))
  {
    var t := Projection(documents, topics, titleFor);
    forall page, topic ensures (page, topic) in t.pageTopics <==>
      exists i :: 0 <= i < |documents| && documents[i].slug == page && topic in documents[i].topics && topic != ""
    {
      InUnion(documents, TagRows, (page, topic));
    }
    forall page, to ensures (page, to) in t.pageLinks <==> exists i :: 0 <= i < |documents| && documents[i].slug == page && to in documents[i].pageLinks
    {
      InUnion(documents, LinkRows, (page, to));
    }
    forall page, wiki, to ensures (page, wiki, to) in t.crossWikiLinks <==>
      exists i :: 0 <= i < |documents| && documents[i].slug == page && (wiki, to) in documents[i].crossWikiLinks
    {
      InUnion(documents, CrossRows, (page, wiki, to));
    }
    forall child, parent ensures (child, parent) in t.topicParents <==>
      exists k :: 0 <= k < |topics| && topics[k].slug == child && parent in topics[k].parents && parent != child
    {
      InUnion(topics, ParentRows, (child, parent));
    }
    forall row ensures row in t.fileRefs <==> exists i :: 0 <= i < |documents| && SaysReference(row, documents[i]) {
      InUnion(documents, RefRows, row);
      forall i | 0 <= i < |documents| ensures row in RefRows(documents[i]) <==> SaysReference(row, documents[i]) {
        ReferenceIsTold(documents[i], row);
      }
    }
  }

  lemma {:induction false} ReferenceIsTold(d: Document, row: FileRefRow)
    ensures row in RefRows(d) <==> SaysReference(row, d)
  {
    if SaysReference(row, d) {
      var i :| 0 <= i < |d.fileRefs| && row.path == d.fileRefs[i].path && row.originalPath == d.fileRefs[i].originalPath
               && row.isDir == d.fileRefs[i].isDir && forall j :: 0 <= j < i ==> d.fileRefs[j].path != row.path;
      assert FirstOfPath(d.fileRefs, i) && row == RefRow(d, i);
    }
  }

  lemma {:induction false} RefsAreFirst(d: Document, path: string)
    ensures (exists i :: 0 <= i < |d.fileRefs| && d.fileRefs[i].path == path) <==> (exists row :: row in RefRows(d) && row.path == path)
    ensures forall a, b :: a in RefRows(d) && b in RefRows(d) && a.path == b.path ==> a == b
  {
    if exists i :: 0 <= i < |d.fileRefs| && d.fileRefs[i].path == path {
      var i :| 0 <= i < |d.fileRefs| && d.fileRefs[i].path == path;
      var first := FirstOf(d.fileRefs, i);
      assert RefRow(d, first) in RefRows(d);
    }
    forall a, b | a in RefRows(d) && b in RefRows(d) && a.path == b.path ensures a == b {
      var i :| 0 <= i < |d.fileRefs| && FirstOfPath(d.fileRefs, i) && RefRow(d, i) == a;
      var j :| 0 <= j < |d.fileRefs| && FirstOfPath(d.fileRefs, j) && RefRow(d, j) == b;
    }
  }

  lemma {:induction false} FirstOf(refs: seq<FileReference>, i: nat) returns (first: nat)
    requires i < |refs|
    ensures FirstOfPath(refs, first) && refs[first].path == refs[i].path
  {
    if FirstOfPath(refs, i) {
      first := i;
    } else {
      var j :| 0 <= j < i && refs[j].path == refs[i].path;
      first := FirstOf(refs, j);
    }
  }
}
