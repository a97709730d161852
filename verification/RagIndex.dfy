/** The keyed chunk store and its upkeep: upsert the chunks of an entity, then trim the ones beyond. */
module RagIndex {
  import opened Common
  import opened Chunker

  datatype SourceType = PROJECT | TASK | COMMENT | ACTIVITY_LOG | DOCUMENT

  datatype Entity = Entity(organizationId: string, sourceType: SourceType, sourceId: string)

  /** The unique key of a row. */
  datatype Slot = Slot(entity: Entity, chunkIndex: nat)

  type Vector = seq<real>

  /** Title and metadata of what is indexed, the metadata as JSON text. */
  datatype About = About(title: string, metadata: string)

  datatype Row = Row(totalChunks: nat, about: About, content: Text, characterCount: nat, embedding: Vector)

  type Rows = map<Slot, Row>

  datatype Document = Document(about: About, content: Text, embeddings: seq<Vector>)

  /** A result, or the error of the embedding provider or of a database statement, passed on to the caller. */
  datatype Outcome = Indexed(chunksCreated: nat) | Thrown

  /** The size of the column's vectors. */
  const DIMENSION: nat := 1536

  // ---- The rows an indexed entity ought to have ------------------------------------------------------------

  function TextChunks(content: Text): seq<Text> {
    Chunks(content, DEFAULT_MAX_CHUNK_SIZE, DEFAULT_OVERLAP)
  }

  /** embeddings[i] ?? [] */
  function EmbeddingAt(embeddings: seq<Vector>, i: nat): Vector {
    if i < |embeddings| then embeddings[i] else []
  }

  function ChunkRow(doc: Document, chunks: seq<Text>, i: nat): Row
    requires i < |chunks|
  {
    Row(|chunks|, doc.about, chunks[i], |chunks[i]|, EmbeddingAt(doc.embeddings, i))
  }

  ghost predicate SlotIsCurrent(rows: Rows, entity: Entity, doc: Document, chunks: seq<Text>, i: nat) {
    if i < |chunks| then Slot(entity, i) in rows && rows[Slot(entity, i)] == ChunkRow(doc, chunks, i)
    else Slot(entity, i) !in rows
  }

  /** The rows of the entity are exactly the chunks of the document, in order and with their number. */
  ghost predicate Current(rows: Rows, entity: Entity, doc: Document) {
    forall i: nat :: SlotIsCurrent(rows, entity, doc, TextChunks(doc.content), i)
  }

  ghost predicate HasRows(rows: Rows, entity: Entity) {
    exists i: nat :: Slot(entity, i) in rows
  }

  ghost predicate SameElsewhere(before: Rows, after: Rows, entity: Entity) {
    forall s: Slot :: s.entity != entity ==> SameAt(before, after, s)
  }

  ghost predicate SameAt(before: Rows, after: Rows, s: Slot) {
    (s in before <==> s in after) && (s in before ==> before[s] == after[s])
  }

  // ---- The statements ----------------------------------------------------------------------------------------

  function WithoutOrphans(rows: Rows, entity: Entity, total: nat): Rows {
    map s | s in rows && !(s.entity == entity && s.chunkIndex >= total) :: rows[s]
  }

  function WithoutSource(rows: Rows, entity: Entity): Rows {
    map s | s in rows && s.entity != entity :: rows[s]
  }

  /** The rows after the first k upserts. */
  function Upserts(rows: Rows, entity: Entity, doc: Document, chunks: seq<Text>, k: nat): Rows
    requires k <= |chunks|
  {
    if k == 0 then rows
    else Upserts(rows, entity, doc, chunks, k - 1)[Slot(entity, k - 1) := ChunkRow(doc, chunks, k - 1)]
  }

  /** Some(k) when the database fails at statement k of the upserts and the final delete. */
  type Fault = Option<nat>

  /**
   Of the statements from k on, n upserts and the delete, the first that throws: the database fails, or the vector has a
   wrong size.
   */
  function FirstThrow(embeddings: seq<Vector>, n: nat, fault: Fault, k: nat): (first: Option<nat>)
    requires k <= n
    ensures first.Some? ==> k <= first.value <= n
    decreases n - k
  {
    if fault == Some(k) || (k < n && |EmbeddingAt(embeddings, k)| != DIMENSION) then Some(k)
    else if k == n then None
    else FirstThrow(embeddings, n, fault, k + 1)
  }

  /**
   Indexing as one function of the rows. `provided` is what the embedding provider returns, if it does; text without
   chunks is reported as indexed with no statement made.
   */
  function AfterIndexing(rows: Rows, entity: Entity, about: About, content: Text, provided: Option<seq<Vector>>,
                         fault: Fault): (Rows, Outcome) {
    var chunks := TextChunks(content);
    if |chunks| == 0 then (rows, Indexed(0))
    else if provided.None? then (rows, Thrown)
    else
      var doc := Document(about, content, provided.value);
      var first := FirstThrow(provided.value, |chunks|, fault, 0);
      if first.Some? then (Upserts(rows, entity, doc, chunks, first.value), Thrown)
      else (WithoutOrphans(Upserts(rows, entity, doc, chunks, |chunks|), entity, |chunks|), Indexed(|chunks|))
  }

  class RagRepository {
    var rows: Rows

    constructor ()
      ensures rows == map[]
    {
      rows := map[];
    }

    /** The database refuses a vector of a wrong size. */
    method UpsertChunk(slot: Slot, row: Row) returns (ok: bool)
      modifies this
      ensures ok <==> |row.embedding| == DIMENSION
      ensures rows == if ok then old(rows)[slot := row] else old(rows)
    {
      ok := |row.embedding| == DIMENSION;
      if ok {
        rows := rows[slot := row];
      }
    }

    method DeleteOrphanChunks(entity: Entity, currentTotalChunks: nat)
      modifies this
      ensures rows == WithoutOrphans(old(rows), entity, currentTotalChunks)
    {
      rows := map s | s in rows && !(s.entity == entity && s.chunkIndex >= currentTotalChunks) :: rows[s];
    }

    method DeleteBySource(entity: Entity)
      modifies this
      ensures rows == WithoutSource(old(rows), entity)
    {
      rows := map s | s in rows && s.entity != entity :: rows[s];
    }
  }

  class RagService {
    const repo: RagRepository

    constructor (repo: RagRepository)
      ensures this.repo == repo
    {
      this.repo := repo;
    }

    method IndexEntity(entity: Entity, about: About, content: Text, provided: Option<seq<Vector>>, fault: Fault)
      returns (outcome: Outcome)
      modifies repo
      ensures (repo.rows, outcome) == AfterIndexing(old(repo.rows), entity, about, content, provided, fault)
      ensures outcome == Indexed(|TextChunks(content)|) ==> SameElsewhere(old(repo.rows), repo.rows, entity)
      ensures outcome.Indexed? && Trim(content) != [] ==>
              provided.Some? && Current(repo.rows, entity, Document(about, content, provided.value))
    {
      ChunkedIsChunks(content, DEFAULT_MAX_CHUNK_SIZE, DEFAULT_OVERLAP);
      var chunks := ChunkText(content, DEFAULT_MAX_CHUNK_SIZE, DEFAULT_OVERLAP);
      if |chunks| == 0 {
        ChunksAreProper(content, DEFAULT_MAX_CHUNK_SIZE, DEFAULT_OVERLAP);
        return Indexed(0);
      }
      if provided.None? {
        return Thrown;
      }
      var doc := Document(about, content, provided.value);
      ghost var before := repo.rows;
      for i := 0 to |chunks|
        invariant repo.rows == Upserts(before, entity, doc, chunks, i)
        invariant FirstThrow(provided.value, |chunks|, fault, 0) == FirstThrow(provided.value, |chunks|, fault, i)
      {
        if fault == Some(i) {
          return Thrown;
        }
        var ok := repo.UpsertChunk(Slot(entity, i), ChunkRow(doc, chunks, i));
        if !ok {
          return Thrown;
        }
      }
      if fault == Some(|chunks|) {
        return Thrown;
      }
      repo.DeleteOrphanChunks(entity, |chunks|);
      IndexingIsExact(before, entity, about, content, provided, fault);
      return Indexed(|chunks|);
    }

    method DeleteEntityKnowledge(entity: Entity)
      modifies repo
      ensures repo.rows == WithoutSource(old(repo.rows), entity)
      ensures SameElsewhere(old(repo.rows), repo.rows, entity) && !HasRows(repo.rows, entity)
    {
      repo.DeleteBySource(entity);
    }
  }

  // ---- One call ----------------------------------------------------------------------------------------------

  lemma {:induction false} UpsertsAt(rows: Rows, entity: Entity, doc: Document, chunks: seq<Text>, k: nat, s: Slot)
    requires k <= |chunks|
    ensures s.entity == entity && s.chunkIndex < k ==>
              s in Upserts(rows, entity, doc, chunks, k)
                  && Upserts(rows, entity, doc, chunks, k)[s] == ChunkRow(doc, chunks, s.chunkIndex)
    ensures !(s.entity == entity && s.chunkIndex < k) ==> SameAt(rows, Upserts(rows, entity, doc, chunks, k), s)
  {
    if k > 0 {
      UpsertsAt(rows, entity, doc, chunks, k - 1, s);
    }
  }

  /**
   Whatever was stored before, a successful call on text with chunks leaves exactly those; and no call touches another
   entity.
   */
  lemma IndexingIsExact(rows: Rows, entity: Entity, about: About, content: Text, provided: Option<seq<Vector>>,
                        fault: Fault)
    ensures var (after, outcome) := AfterIndexing(rows, entity, about, content, provided, fault);
            && SameElsewhere(rows, after, entity)
            && (outcome.Indexed? && Trim(content) != [] ==>
                provided.Some? && Current(after, entity, Document(about, content, provided.value)))
  {
    var chunks := TextChunks(content);
    ChunksAreProper(content, DEFAULT_MAX_CHUNK_SIZE, DEFAULT_OVERLAP);
    if chunks != [] && provided.Some? {
      var doc := Document(about, content, provided.value);
      var first := FirstThrow(provided.value, |chunks|, fault, 0);
      var k := if first.Some? then first.value else |chunks|;
      forall s: Slot
        ensures s.entity == entity && s.chunkIndex < k ==>
                  s in Upserts(rows, entity, doc, chunks, k)
                      && Upserts(rows, entity, doc, chunks, k)[s] == ChunkRow(doc, chunks, s.chunkIndex)
        ensures !(s.entity == entity && s.chunkIndex < k) ==> SameAt(rows, Upserts(rows, entity, doc, chunks, k), s)
      {
        UpsertsAt(rows, entity, doc, chunks, k, s);
      }
    }
  }

  /**
   The rows after a successful call on text with chunks: for each chunk of at most 1000 characters, overlapping by 150,
   one row with its text, its length, the number of all, and its vector of 1536 elements; and no rows beyond.
   */
  lemma IndexedRows(rows: Rows, entity: Entity, about: About, content: Text, provided: Option<seq<Vector>>,
                    fault: Fault, i: nat)
    requires AfterIndexing(rows, entity, about, content, provided, fault).1.Indexed? && Trim(content) != []
    ensures var chunks := Chunks(content, 1000, 150);
            var (after, outcome) := AfterIndexing(rows, entity, about, content, provided, fault);
            && outcome == Indexed(|chunks|) && provided.Some? && |chunks| <= |provided.value|
            && (i >= |chunks| ==> Slot(entity, i) !in after)
            && (i < |chunks| ==>
                  && |provided.value[i]| == 1536
                  && Slot(entity, i) in after
                  && after[Slot(entity, i)] == Row(|chunks|, about, chunks[i], |chunks[i]|, provided.value[i]))
  {
    var chunks := TextChunks(content);
    ChunksAreProper(content, 1000, 150);
    IndexingIsExact(rows, entity, about, content, provided, fault);
    FirstThrowIff(provided.value, |chunks|, fault, 0);
    var after := AfterIndexing(rows, entity, about, content, provided, fault).0;
    assert SlotIsCurrent(after, entity, Document(about, content, provided.value), chunks, i);
    assert i < |chunks| ==> |EmbeddingAt(provided.value, i)| == DIMENSION;
    assert |EmbeddingAt(provided.value, |chunks| - 1)| == DIMENSION;
  }

  /** What a call leaves that throws at statement k: the rows before it are written, and none removed. */
  lemma ThrownRows(rows: Rows, entity: Entity, about: About, content: Text, embeddings: seq<Vector>, fault: Fault)
    returns (k: nat)
    requires AfterIndexing(rows, entity, about, content, Some(embeddings), fault).1 == Thrown
    ensures var chunks, after := Chunks(content, 1000, 150),
            AfterIndexing(rows, entity, about, content, Some(embeddings), fault).0;
            && k <= |chunks| && (fault == Some(k) || k >= |embeddings| || |embeddings[k]| != 1536)
            && (forall i: nat :: i < k ==>
                  && i < |embeddings| && |embeddings[i]| == 1536 && fault != Some(i) && Slot(entity, i) in after
                  && after[Slot(entity, i)] == Row(|chunks|, about, chunks[i], |chunks[i]|, embeddings[i]))
            && (forall s: Slot :: s.entity != entity || s.chunkIndex >= k ==> SameAt(rows, after, s))
  {
    var doc, chunks := Document(about, content, embeddings), TextChunks(content);
    k := FirstThrow(embeddings, |chunks|, fault, 0).value;
    FirstThrowIs(embeddings, |chunks|, fault, 0);
    var after := Upserts(rows, entity, doc, chunks, k);
    forall s: Slot
      ensures s.entity == entity && s.chunkIndex < k ==>
                s in after && after[s] == ChunkRow(doc, chunks, s.chunkIndex)
      ensures !(s.entity == entity && s.chunkIndex < k) ==> SameAt(rows, after, s)
    {
      UpsertsAt(rows, entity, doc, chunks, k, s);
    }
    forall i: nat | i < k
      ensures && i < |embeddings| && |embeddings[i]| == 1536 && fault != Some(i) && Slot(entity, i) in after
              && after[Slot(entity, i)] == Row(|chunks|, about, chunks[i], |chunks[i]|, embeddings[i])
    {
      assert |EmbeddingAt(embeddings, i)| == DIMENSION;
    }
  }

  lemma {:induction false} FirstThrowIs(embeddings: seq<Vector>, n: nat, fault: Fault, from: nat)
    requires from <= n && FirstThrow(embeddings, n, fault, from).Some?
    ensures var k := FirstThrow(embeddings, n, fault, from).value;
            && (fault == Some(k) || (k < n && |EmbeddingAt(embeddings, k)| != DIMENSION))
            && forall i :: from <= i < k ==> fault != Some(i) && |EmbeddingAt(embeddings, i)| == DIMENSION
    decreases n - from
  {
    if from < n && fault != Some(from) && |EmbeddingAt(embeddings, from)| == DIMENSION {
      FirstThrowIs(embeddings, n, fault, from + 1);
    }
  }

  /** What the entity's rows are and what the others were decide the store. */
  lemma CurrentIsUnique(rows: Rows, a: Rows, b: Rows, entity: Entity, doc: Document)
    requires Current(a, entity, doc) && Current(b, entity, doc)
    requires SameElsewhere(rows, a, entity) && SameElsewhere(rows, b, entity)
    ensures a == b
  {
    var chunks := TextChunks(doc.content);
    forall s: Slot
      ensures SameAt(a, b, s)
    {
      if s.entity == entity {
        assert SlotIsCurrent(a, entity, doc, chunks, s.chunkIndex)
               && SlotIsCurrent(b, entity, doc, chunks, s.chunkIndex);
      } else {
        assert SameAt(rows, a, s) && SameAt(rows, b, s);
      }
    }
    SameEverywhere(a, b);
  }

  lemma SameEverywhere(a: Rows, b: Rows)
    requires forall s: Slot :: SameAt(a, b, s)
    ensures a == b
  {
    forall s: Slot ensures s in a.Keys <==> s in b.Keys {
      assert SameAt(a, b, s);
    }
    forall s: Slot | s in a ensures a[s] == b[s] {
      assert SameAt(a, b, s);
    }
  }

  lemma ElsewhereIsTransitive(a: Rows, b: Rows, c: Rows, entity: Entity)
    requires SameElsewhere(a, b, entity) && SameElsewhere(b, c, entity)
    ensures SameElsewhere(a, c, entity)
  {
    forall s: Slot | s.entity != entity ensures SameAt(a, c, s) {
      assert SameAt(a, b, s) && SameAt(b, c, s);
    }
  }

  /** When a call throws: the embeddings or the database fail, or some chunk has no vector or one of a wrong size. */
  lemma ThrownIff(rows: Rows, entity: Entity, about: About, content: Text, provided: Option<seq<Vector>>, fault: Fault)
    ensures AfterIndexing(rows, entity, about, content, provided, fault).1 == Thrown <==>
            Trim(content) != [] && (provided.None? || (fault.Some? && fault.value <= |TextChunks(content)|)
                                    || exists k ::
                                       0 <= k < |TextChunks(content)| && |EmbeddingAt(provided.value, k)| != DIMENSION)
  {
    ChunksAreProper(content, DEFAULT_MAX_CHUNK_SIZE, DEFAULT_OVERLAP);
    if provided.Some? {
      FirstThrowIff(provided.value, |TextChunks(content)|, fault, 0);
    }
  }

  lemma {:induction false} FirstThrowIff(embeddings: seq<Vector>, n: nat, fault: Fault, k: nat)
    requires k <= n
    ensures FirstThrow(embeddings, n, fault, k).Some? <==>
            (fault.Some? && k <= fault.value <= n) || exists i ::
                k <= i < n && |EmbeddingAt(embeddings, i)| != DIMENSION
    decreases n - k
  {
    if k < n {
      FirstThrowIff(embeddings, n, fault, k + 1);
    }
  }

  /**
   A call that succeeds stores the same rows whatever calls for the entity came before, whether they failed partway or
   not.
   */
  lemma RetryErasesFault(rows: Rows, entity: Entity, about: About, content: Text, provided: Option<seq<Vector>>,
                         fault: Fault, about0: About, content0: Text, provided0: Option<seq<Vector>>, fault0: Fault)
    requires AfterIndexing(rows, entity, about, content, provided, fault).1.Indexed? && Trim(content) != []
    ensures var between := AfterIndexing(rows, entity, about0, content0, provided0, fault0).0;
            AfterIndexing(between, entity, about, content, provided, fault)
                == AfterIndexing(rows, entity, about, content, provided, fault)
  {
    var between := AfterIndexing(rows, entity, about0, content0, provided0, fault0).0;
    ChunksAreProper(content, DEFAULT_MAX_CHUNK_SIZE, DEFAULT_OVERLAP);
    IndexingIsExact(rows, entity, about0, content0, provided0, fault0);
    IndexingIsExact(rows, entity, about, content, provided, fault);
    IndexingIsExact(between, entity, about, content, provided, fault);
    var again := AfterIndexing(between, entity, about, content, provided, fault).0;
    ElsewhereIsTransitive(rows, between, again, entity);
    CurrentIsUnique(rows, again, AfterIndexing(rows, entity, about, content, provided, fault).0, entity,
                    Document(about, content, provided.value));
  }

  /**
   A second run of the same call changes nothing but embeddings, and not those if the provider gives the same ones.
   */
  lemma SecondRunChangesNoText(rows: Rows, entity: Entity, about: About, content: Text, provided: Option<seq<Vector>>,
                               fault: Fault, provided2: Option<seq<Vector>>, fault2: Fault)
    requires AfterIndexing(rows, entity, about, content, provided, fault).1.Indexed?
    requires AfterIndexing(rows, entity, about, content, provided2, fault2).1.Indexed?
    ensures var first := AfterIndexing(rows, entity, about, content, provided, fault).0;
            var second := AfterIndexing(first, entity, about, content, provided2, fault2).0;
            && first.Keys == second.Keys
            && (forall s :: s in first ==> second[s].(embedding := first[s].embedding) == first[s])
            && (provided == provided2 ==> first == second)
  {
    var first := AfterIndexing(rows, entity, about, content, provided, fault).0;
    var second := AfterIndexing(first, entity, about, content, provided2, fault2).0;
    ChunksAreProper(content, DEFAULT_MAX_CHUNK_SIZE, DEFAULT_OVERLAP);
    if Trim(content) != [] {
      IndexingIsExact(rows, entity, about, content, provided, fault);
      IndexingIsExact(first, entity, about, content, provided2, fault2);
      forall s: Slot
        ensures s in first.Keys <==> s in second.Keys
        ensures s in first && s in second ==> second[s].(embedding := first[s].embedding) == first[s]
      {
        if s.entity == entity {
          assert SlotIsCurrent(first, entity, Document(about, content, provided.value), TextChunks(content),
                               s.chunkIndex);
          assert SlotIsCurrent(second, entity, Document(about, content, provided2.value), TextChunks(content),
                               s.chunkIndex);
        } else {
          assert SameAt(first, second, s);
        }
      }
      if provided == provided2 {
        ElsewhereIsTransitive(rows, first, second, entity);
        CurrentIsUnique(rows, first, second, entity, Document(about, content, provided.value));
      }
    }
  }

  /**
   Blank content is reported as indexed with no chunks, but what was stored for the entity stays: the store agrees with
   the content exactly when nothing was stored before.
   */
  lemma BlankContentIsExactIff(rows: Rows, entity: Entity, about: About, content: Text, provided: Option<seq<Vector>>,
                               fault: Fault)
    requires Trim(content) == []
    ensures AfterIndexing(rows, entity, about, content, provided, fault) == (rows, Indexed(0))
    ensures forall embeddings :: Current(rows, entity, Document(about, content, embeddings)) <==> !HasRows(rows, entity)
  {
    forall embeddings
      ensures Current(rows, entity, Document(about, content, embeddings)) <==> !HasRows(rows, entity)
    {
      var doc := Document(about, content, embeddings);
      if Current(rows, entity, doc) {
        forall i: nat ensures Slot(entity, i) !in rows {
          assert SlotIsCurrent(rows, entity, doc, TextChunks(content), i);
        }
      }
    }
  }

  // ---- Every run -----------------------------------------------------------------------------------------------

  datatype Call =
    | Index(entity: Entity, about: About, content: Text, provided: Option<seq<Vector>>, fault: Fault)
    | Delete(entity: Entity)

  function Serve(rows: Rows, call: Call): Rows {
    match call
    case Index(entity, about, content, provided, fault) =>
      AfterIndexing(rows, entity, about, content, provided, fault).0
    case Delete(entity) => WithoutSource(rows, entity)
  }

  function Run(calls: seq<Call>): Rows {
    if calls == [] then map[] else Serve(Run(calls[..|calls| - 1]), calls[|calls| - 1])
  }

  /** What the calls made for an entity lead one to expect in the store; Partial after a statement threw. */
  datatype Expected = Nothing | Whole(doc: Document) | Partial

  function AfterCall(expected: Expected, call: Call): Expected {
    match call
    case Delete(_) => Nothing
    case Index(_, about, content, provided, fault) =>
      if Trim(content) == [] || provided.None? then expected
      else
        var first := FirstThrow(provided.value, |TextChunks(content)|, fault, 0);
        if first == Some(0) then expected
        else if first.Some? then Partial
        else Whole(Document(about, content, provided.value))
  }

  function ExpectedFor(entity: Entity, calls: seq<Call>): Expected {
    if calls == [] then Nothing
    else
      var call, before := calls[|calls| - 1], ExpectedFor(entity, calls[..|calls| - 1]);
      if call.entity == entity then AfterCall(before, call) else before
  }

  ghost predicate Meets(rows: Rows, entity: Entity, expected: Expected) {
    match expected
    case Nothing => !HasRows(rows, entity)
    case Whole(doc) => Current(rows, entity, doc)
    case Partial => true
  }

  lemma OtherCallsKeep(before: Rows, after: Rows, entity: Entity, expected: Expected)
    requires Meets(before, entity, expected)
    requires forall s: Slot :: s.entity == entity ==> SameAt(before, after, s)
    ensures Meets(after, entity, expected)
  {
    forall i: nat ensures SameAt(before, after, Slot(entity, i)) {
    }
    if expected.Whole? {
      forall i: nat ensures SlotIsCurrent(after, entity, expected.doc, TextChunks(expected.doc.content), i) {
        assert SlotIsCurrent(before, entity, expected.doc, TextChunks(expected.doc.content), i);
        assert SameAt(before, after, Slot(entity, i));
      }
    }
  }

  lemma CallKeepsMeets(rows: Rows, call: Call, entity: Entity, expected: Expected)
    requires Meets(rows, entity, expected)
    ensures Meets(Serve(rows, call), entity, if call.entity == entity then AfterCall(expected, call) else expected)
  {
    if call.Index? {
      ChunksAreProper(call.content, DEFAULT_MAX_CHUNK_SIZE, DEFAULT_OVERLAP);
      IndexingIsExact(rows, call.entity, call.about, call.content, call.provided, call.fault);
    }
    if call.entity != entity {
      forall s: Slot | s.entity == entity ensures SameAt(rows, Serve(rows, call), s) {
      }
      OtherCallsKeep(rows, Serve(rows, call), entity, expected);
    }
  }

  /**
   In every run of indexing and deleting, with failures at any statement, each entity's rows are exactly the chunks of
   its last document indexed in full, or none after a delete, unless a statement threw since.
   */
  lemma {:induction false} EveryRunMeetsExpected(calls: seq<Call>, entity: Entity)
    ensures Meets(Run(calls), entity, ExpectedFor(entity, calls))
  {
    if calls != [] {
      var before := calls[..|calls| - 1];
      EveryRunMeetsExpected(before, entity);
      CallKeepsMeets(Run(before), calls[|calls| - 1], entity, ExpectedFor(entity, before));
    }
  }

  /** The row is a chunk of the document that the call was to index. */
  ghost predicate ChunkOf(call: Call, s: Slot, row: Row) {
    && call.Index? && call.entity == s.entity && call.provided.Some?
    && s.chunkIndex < |TextChunks(call.content)|
    && row == ChunkRow(Document(call.about, call.content, call.provided.value), TextChunks(call.content), s.chunkIndex)
  }

  lemma ServedRow(rows: Rows, call: Call, s: Slot)
    requires s in Serve(rows, call)
    ensures ChunkOf(call, s, Serve(rows, call)[s]) || (s in rows && rows[s] == Serve(rows, call)[s])
  {
    if call.Index? && call.provided.Some? {
      var doc, chunks := Document(call.about, call.content, call.provided.value), TextChunks(call.content);
      var first := FirstThrow(call.provided.value, |chunks|, call.fault, 0);
      UpsertsAt(rows, call.entity, doc, chunks, if first.Some? then first.value else |chunks|, s);
    }
  }

  /**
   In every run, failures included, each stored row is a chunk of a document that some call for its entity was to index.
   */
  lemma {:induction false} RowsComeFromCalls(calls: seq<Call>, s: Slot)
    requires s in Run(calls)
    ensures exists k :: 0 <= k < |calls| && ChunkOf(calls[k], s, Run(calls)[s])
  {
    var before, last := calls[..|calls| - 1], calls[|calls| - 1];
    ServedRow(Run(before), last, s);
    if !ChunkOf(last, s, Run(calls)[s]) {
      RowsComeFromCalls(before, s);
      var k :| 0 <= k < |before| && ChunkOf(before[k], s, Run(before)[s]);
      assert ChunkOf(calls[k], s, Run(calls)[s]);
    }
  }
}
