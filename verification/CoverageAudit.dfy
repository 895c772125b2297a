/** The audit of the semantic index: paging through what is eligible, and comparing it with the index. */
module CoverageAudit {
  import opened Prelude

  // ------------------------------------------------------------------ documents

  /** Message versions are numbered from 1; cards have textual identifiers. */
  datatype SourceId = Message(id: nat) | Card(name: string)

  datatype Document = Document(
    source: SourceId, revision: string, chunk: int, chunks: int, chat: int, hash: string, versions: seq<int>)

  datatype Identity = Identity(
    source: SourceId, revision: string, chunk: int, chunks: int, chat: int, hash: string, model: string)

  type Coverage = map<Identity, seq<int>>

  function IdentityOf(d: Document, model: string): Identity {
    Identity(d.source, d.revision, d.chunk, d.chunks, d.chat, d.hash, model)
  }

  /** The order in which a cursor runs: by number, or by text. */
  predicate Before(a: SourceId, b: SourceId) {
    match (a, b)
    case (Message(i), Message(j)) => i < j
    case (Card(s), Card(t)) => LexLess(s, t)
    case _ => false
  }

  lemma BeforeIsTransitive(a: SourceId, b: SourceId, c: SourceId)
    requires Before(a, b) && Before(b, c)
    ensures Before(a, c)
  {
    if a.Card? {
      LexTransitive(a.name, b.name, c.name);
    }
  }

  lemma BeforeIsStrict(a: SourceId)
    ensures !Before(a, a)
  {
    if a.Card? {
      LexTotal(a.name, a.name);
    }
  }

  function Record(m: Coverage, docs: seq<Document>, model: string): Coverage {
    if docs == [] then m
    else
      var d := docs[|docs| - 1];
      Record(m, docs[..|docs| - 1], model)[IdentityOf(d, model) := d.versions]
  }

  lemma {:induction false} RecordConcat(m: Coverage, a: seq<Document>, b: seq<Document>, model: string)
    ensures Record(m, a + b, model) == Record(Record(m, a, model), b, model)
    decreases |b|
  {
    if b == [] {
      assert a + b == a;
    } else {
      assert (a + b)[..|a + b| - 1] == a + b[..|b| - 1];
      RecordConcat(m, a, b[..|b| - 1], model);
    }
  }

  ghost predicate SeparateIdentities(docs: seq<Document>, model: string) {
    forall i, j :: 0 <= i < j < |docs| ==> IdentityOf(docs[i], model) != IdentityOf(docs[j], model)
  }

  ghost predicate Listed(docs: seq<Document>, k: Identity, model: string) {
    exists i :: 0 <= i < |docs| && k == IdentityOf(docs[i], model)
  }

  lemma {:induction false} RecordKey(docs: seq<Document>, k: Identity, model: string)
    ensures k in Record(map[], docs, model) <==> Listed(docs, k, model)
    decreases |docs|
  {
    if docs != [] {
      var rest := docs[..|docs| - 1];
      RecordKey(rest, k, model);
      if Listed(rest, k, model) {
        var i :| 0 <= i < |rest| && k == IdentityOf(rest[i], model);
        assert k == IdentityOf(docs[i], model);
      }
      if Listed(docs, k, model) {
        var i :| 0 <= i < |docs| && k == IdentityOf(docs[i], model);
        assert i < |rest| ==> k == IdentityOf(rest[i], model);
      }
    }
  }

  lemma {:induction false} RecordValue(docs: seq<Document>, i: nat, model: string)
    requires SeparateIdentities(docs, model) && i < |docs|
    ensures var k, m := IdentityOf(docs[i], model), Record(map[], docs, model);
            k in m && m[k] == docs[i].versions
    decreases |docs|
  {
    if i < |docs| - 1 {
      RecordValue(docs[..|docs| - 1], i, model);
      assert IdentityOf(docs[i], model) != IdentityOf(docs[|docs| - 1], model);
    }
  }

  lemma {:induction false} RecordSize(docs: seq<Document>, model: string)
    requires SeparateIdentities(docs, model)
    ensures |Record(map[], docs, model)| == |docs|
    decreases |docs|
  {
    if docs != [] {
      var rest, k := docs[..|docs| - 1], IdentityOf(docs[|docs| - 1], model);
      RecordSize(rest, model);
      RecordKey(rest, k, model);
      assert !Listed(rest, k, model);
      assert Record(map[], docs, model).Keys == Record(map[], rest, model).Keys + {k};
    }
  }

  /** What recording builds: exactly the documents' identities, each with its own version list. */
  ghost predicate Covers(m: Coverage, docs: seq<Document>, model: string) {
    && |m| == |docs|
    && (forall k :: k in m <==> Listed(docs, k, model))
    && forall i :: 0 <= i < |docs| ==>
         IdentityOf(docs[i], model) in m && m[IdentityOf(docs[i], model)] == docs[i].versions
  }

  // ------------------------------------------------------------------ the same, part by part

  /** The identity is that of the document, under the audited model. */
  predicate Names(k: Identity, d: Document, model: string) {
    && k.source == d.source && k.revision == d.revision && k.chunk == d.chunk && k.chunks == d.chunks
    && k.chat == d.chat && k.hash == d.hash && k.model == model
  }

  /** Some part of what identifies a document differs, for any two of them. */
  ghost predicate DocsDiffer(docs: seq<Document>) {
    forall i, j :: 0 <= i < j < |docs| ==>
      !(&& docs[i].source == docs[j].source && docs[i].revision == docs[j].revision
        && docs[i].chunk == docs[j].chunk && docs[i].chunks == docs[j].chunks
        && docs[i].chat == docs[j].chat && docs[i].hash == docs[j].hash)
  }

  predicate EntryFor(m: Coverage, k: Identity, d: Document, model: string) {
    k in m && Names(k, d, model) && m[k] == d.versions
  }

  ghost predicate HasEntry(m: Coverage, d: Document, model: string) {
    exists k :: EntryFor(m, k, d, model)
  }

  ghost predicate HasDocument(m: Coverage, docs: seq<Document>, k: Identity, model: string) {
    exists i :: 0 <= i < |docs| && EntryFor(m, k, docs[i], model)
  }

  /** Each document has its entry, with its own version list, and there is no other entry. */
  ghost predicate Holds(m: Coverage, docs: seq<Document>, model: string) {
    && |m| == |docs|
    && (forall k :: k in m ==> HasDocument(m, docs, k, model))
    && forall i :: 0 <= i < |docs| ==> HasEntry(m, docs[i], model)
  }

  lemma NamesOnly(k: Identity, d: Document, model: string)
    ensures Names(k, d, model) <==> k == IdentityOf(d, model)
  {
  }

  lemma DifferMeansSeparate(docs: seq<Document>, model: string)
    ensures DocsDiffer(docs) <==> SeparateIdentities(docs, model)
  {
  }

  lemma CoversEntry(m: Coverage, docs: seq<Document>, i: nat, model: string)
    requires Covers(m, docs, model) && i < |docs|
    ensures HasEntry(m, docs[i], model)
  {
    NamesOnly(IdentityOf(docs[i], model), docs[i], model);
    assert EntryFor(m, IdentityOf(docs[i], model), docs[i], model);
  }

  lemma CoversDocument(m: Coverage, docs: seq<Document>, k: Identity, model: string)
    requires Covers(m, docs, model) && k in m
    ensures HasDocument(m, docs, k, model)
  {
    assert Listed(docs, k, model);
    var i :| 0 <= i < |docs| && k == IdentityOf(docs[i], model);
    NamesOnly(k, docs[i], model);
    assert EntryFor(m, k, docs[i], model);
  }

  lemma CoversHolds(m: Coverage, docs: seq<Document>, model: string)
    requires Covers(m, docs, model)
    ensures Holds(m, docs, model)
  {
    forall k | k in m ensures HasDocument(m, docs, k, model) {
      CoversDocument(m, docs, k, model);
    }
    forall i | 0 <= i < |docs| ensures HasEntry(m, docs[i], model) {
      CoversEntry(m, docs, i, model);
    }
  }

  lemma RecordIsExact(docs: seq<Document>, model: string)
    requires SeparateIdentities(docs, model)
    ensures Covers(Record(map[], docs, model), docs, model)
    ensures DocsDiffer(docs) && Holds(Record(map[], docs, model), docs, model)
  {
    RecordCovers(docs, model);
    DifferMeansSeparate(docs, model);
    CoversHolds(Record(map[], docs, model), docs, model);
  }

  lemma RecordCovers(docs: seq<Document>, model: string)
    requires SeparateIdentities(docs, model)
    ensures Covers(Record(map[], docs, model), docs, model)
  {
    RecordSize(docs, model);
    forall k ensures k in Record(map[], docs, model) <==> Listed(docs, k, model) {
      RecordKey(docs, k, model);
    }
    forall i | 0 <= i < |docs|
      ensures IdentityOf(docs[i], model) in Record(map[], docs, model)
      ensures Record(map[], docs, model)[IdentityOf(docs[i], model)] == docs[i].versions
    {
      RecordValue(docs, i, model);
    }
  }

  // ------------------------------------------------------------------ paging

  /** A lister: what is returned after a cursor. */
  type Lister = SourceId -> seq<Document>

  datatype AuditError = CursorStuck

  /** One source with the chunks it was cut into. */
  datatype Source = Source(id: SourceId, docs: seq<Document>)

  ghost predicate Sorted(sources: seq<Source>, start: SourceId) {
    && (forall i :: 0 <= i < |sources| ==>
         Before(start, sources[i].id) && sources[i].docs != []
         && forall k :: 0 <= k < |sources[i].docs| ==> sources[i].docs[k].source == sources[i].id)
    && forall i, j :: 0 <= i < j < |sources| ==> Before(sources[i].id, sources[j].id)
  }

  function AllDocs(sources: seq<Source>): seq<Document> {
    if sources == [] then [] else AllDocs(sources[..|sources| - 1]) + sources[|sources| - 1].docs
  }

  lemma {:induction false} AllDocsConcat(a: seq<Source>, b: seq<Source>)
    ensures AllDocs(a + b) == AllDocs(a) + AllDocs(b)
    decreases |b|
  {
    if b == [] {
      assert a + b == a;
    } else {
      assert (a + b)[..|a + b| - 1] == a + b[..|b| - 1];
      AllDocsConcat(a, b[..|b| - 1]);
    }
  }

  /** The sources at or before the cursor are exactly the first `k`. */
  ghost predicate CutAt(sources: seq<Source>, cursor: SourceId, k: nat) {
    && k <= |sources|
    && (forall i :: 0 <= i < k ==> !Before(cursor, sources[i].id))
    && forall i :: k <= i < |sources| ==> Before(cursor, sources[i].id)
  }

  function Page(sources: seq<Source>, k: nat, limit: nat): seq<Source>
    requires k <= |sources|
  {
    sources[k..if k + limit <= |sources| then k + limit else |sources|]
  }

  /** The lister returns the next whole sources after the cursor, in order, up to `limit` of them. */
  ghost predicate Conforms(list: Lister, sources: seq<Source>, limit: nat, start: SourceId) {
    && limit >= 1 && Sorted(sources, start)
    && forall c, k :: CutAt(sources, c, k) ==> list(c) == AllDocs(Page(sources, k, limit))
  }

  lemma PageEnds(sources: seq<Source>, k: nat, limit: nat, start: SourceId)
    requires Sorted(sources, start) && k <= |sources| && limit >= 1
    ensures var docs := AllDocs(Page(sources, k, limit));
            && (docs == [] <==> k == |sources|)
            && (k < |sources| ==>
                 var n := k + |Page(sources, k, limit)|;
                 && k < n <= |sources| && docs[|docs| - 1].source == sources[n - 1].id)
  {
    var p := Page(sources, k, limit);
    if k < |sources| {
      var last := p[|p| - 1];
      assert last == sources[k + |p| - 1];
      assert AllDocs(p) == AllDocs(p[..|p| - 1]) + last.docs;
      assert AllDocs(p)[|AllDocs(p)| - 1] == last.docs[|last.docs| - 1];
    }
  }

  /** After a page, the cursor stands at the page's last source. */
  lemma CursorMoves(sources: seq<Source>, k: nat, n: nat, start: SourceId)
    requires Sorted(sources, start) && 0 < n <= |sources|
    ensures CutAt(sources, sources[n - 1].id, n)
  {
    forall i | 0 <= i < n ensures !Before(sources[n - 1].id, sources[i].id) {
      if Before(sources[n - 1].id, sources[i].id) {
        if i < n - 1 {
          BeforeIsTransitive(sources[n - 1].id, sources[i].id, sources[n - 1].id);
        }
        BeforeIsStrict(sources[n - 1].id);
      }
    }
  }

  ghost predicate DrawsFrom(list: Lister, pool: set<Document>) {
    forall c, d :: d in list(c) ==> d in pool
  }

  ghost function Ahead(pool: set<Document>, cursor: SourceId): set<Document> {
    set d | d in pool && Before(cursor, d.source)
  }

  lemma AheadShrinks(pool: set<Document>, cursor: SourceId, d: Document)
    requires d in pool && Before(cursor, d.source)
    ensures Ahead(pool, d.source) < Ahead(pool, cursor)
  {
    forall e | e in Ahead(pool, d.source) ensures e in Ahead(pool, cursor) {
      BeforeIsTransitive(cursor, d.source, e.source);
    }
    BeforeIsStrict(d.source);
    assert d in Ahead(pool, cursor) && d !in Ahead(pool, d.source);
  }

  method RecordBatch(m: Coverage, batch: seq<Document>, model: string) returns (r: Coverage)
    ensures r == Record(m, batch, model)
  {
    r := m;
    for i := 0 to |batch|
      invariant r == Record(m, batch[..i], model)
    {
      assert batch[..i + 1][..i] == batch[..i];
      r := r[IdentityOf(batch[i], model) := batch[i].versions];
    }
    assert batch[..|batch|] == batch;
  }

  /**
   One paging loop. It ends for every lister over finitely many documents, and for a conforming
   one it has recorded every eligible document and nothing else.
   */
  method Collect(list: Lister, start: SourceId, m: Coverage, model: string,
                 ghost pool: set<Document>, ghost sources: seq<Source>, ghost limit: nat)
      returns (r: Result<Coverage, AuditError>)
    requires DrawsFrom(list, pool)
    ensures Conforms(list, sources, limit, start) ==> r == Ok(Record(m, AllDocs(sources), model))
  {
    var cursor, all := start, m;
    ghost var k: nat := 0;
    while true
      invariant Conforms(list, sources, limit, start) ==>
        CutAt(sources, cursor, k) && all == Record(m, AllDocs(sources[..k]), model)
      decreases Ahead(pool, cursor)
    {
      var batch := list(cursor);
      ghost var ok := Conforms(list, sources, limit, start);
      if ok {
        assert batch == AllDocs(Page(sources, k, limit));
        PageEnds(sources, k, limit, start);
      }
      if batch == [] {
        assert ok ==> sources[..k] == sources;
        return Ok(all);
      }
      all := RecordBatch(all, batch, model);
      var last := batch[|batch| - 1];
      if ok {
        k := NextPage(sources, k, limit, start, m, model);
      }
      if !Before(cursor, last.source) {
        return Err(CursorStuck);
      }
      AheadShrinks(pool, cursor, last);
      cursor := last.source;
    }
  }

  lemma NextPage(sources: seq<Source>, k: nat, limit: nat, start: SourceId, m: Coverage, model: string)
      returns (n: nat)
    requires Sorted(sources, start) && k < |sources| && limit >= 1
    ensures k < n <= |sources|
    ensures var docs := AllDocs(Page(sources, k, limit));
            && docs != [] && CutAt(sources, docs[|docs| - 1].source, n)
            && Record(Record(m, AllDocs(sources[..k]), model), docs, model) == Record(m, AllDocs(sources[..n]), model)
  {
    n := k + |Page(sources, k, limit)|;
    PageEnds(sources, k, limit, start);
    CursorMoves(sources, k, n, start);
    assert sources[..n] == sources[..k] + Page(sources, k, limit);
    AllDocsConcat(sources[..k], Page(sources, k, limit));
    RecordConcat(m, AllDocs(sources[..k]), AllDocs(Page(sources, k, limit)), model);
  }

  /** The messages, then the cards, into one dictionary. */
  method EligibleIdentities(messages: Lister, cards: Lister, model: string, ghost pool: set<Document>,
                            ghost ms: seq<Source>, ghost cs: seq<Source>, ghost limit: nat)
      returns (r: Result<Coverage, AuditError>)
    requires DrawsFrom(messages, pool) && DrawsFrom(cards, pool)
    ensures Conforms(messages, ms, limit, Message(0)) && Conforms(cards, cs, limit, Card("")) ==>
              r == Ok(Record(map[], AllDocs(ms) + AllDocs(cs), model))
              && (DocsDiffer(AllDocs(ms) + AllDocs(cs)) ==> Holds(r.value, AllDocs(ms) + AllDocs(cs), model))
  {
    r := Collect(messages, Message(0), map[], model, pool, ms, limit);
    if r.Ok? {
      RecordConcat(map[], AllDocs(ms), AllDocs(cs), model);
      r := Collect(cards, Card(""), r.value, model, pool, cs, limit);
    }
    ghost var docs := AllDocs(ms) + AllDocs(cs);
    if DocsDiffer(docs) {
      DifferMeansSeparate(docs, model);
      RecordIsExact(docs, model);
    }
  }
}
