/**
 * `RAGSystem` (rag_system.py): markdown documents cut into overlapping token windows,
 * indexed in batches of ten, retrieved by nearest neighbour and answered by a chat model.
 * The tokenizer, the embedding provider, the vector index's query and the chat model are
 * foreign; the class receives them as function values.
 */
module Rag {
  import opened Wrappers
  import opened Strings
  import opened Chunking
  import opened Store

  /** A tokenizer token. */
  type Token = nat

  /**
   * The tokenizer's two directions; the model does not rely on one inverting the other.
   * `encode` is `None` where tiktoken raises, as it does on text holding a special token.
   */
  datatype Tokenizer = Tokenizer(encode: string -> Option<seq<Token>>, decode: seq<Token> -> string)

  const ChunkMaxTokens: nat := 500
  const ChunkOverlap: nat := 50
  const BatchSize: nat := 10
  const SearchCount: nat := 5

  const Untitled := "Document sans titre"
  const NothingInContext := "Désolé, je n'ai pas trouvé d'informations pertinentes dans la base de données."
  const NothingRetrieved := "Je n'ai pas trouvé d'informations pertinentes dans la base de données."
  const GenerationError := "Erreur lors de la génération de la réponse: "

  /** `Document`: one chunk of one markdown file. */
  datatype Document = Document(content: string, filename: string, title: string, chunkId: string)

  /** The metadata record stored beside each chunk: `{filename, title, chunk_id}`. */
  datatype ChunkMeta = ChunkMeta(filename: string, title: string, chunkId: string)

  /** A markdown file of the data directory: its base name and its text, `None` when it could not be read. */
  datatype MarkdownFile = MarkdownFile(name: string, content: Option<string>)

  /** One result of `search_documents`: `{content, filename, title, score}`. */
  datatype Retrieved = Retrieved(content: string, filename: string, title: string, score: real)

  /** One cited source of an answer: `{title, filename, score}`. */
  datatype Source = Source(title: string, filename: string, score: real)

  /** `generate_answer`'s result: `{answer, sources}`. */
  datatype Answer = Answer(answer: string, sources: seq<Source>)

  /** `ask_question`'s result: `{answer, sources, query}`. */
  datatype Response = Response(answer: string, sources: seq<Source>, query: string)

  // ---------------------------------------------------------------------------------
  // Titles

  predicate IsHeading(line: string) {
    StartsWith(line, "# ")
  }

  /** The scan of `_extract_title`: the first heading line's text, stripped. */
  function FirstHeading(lines: seq<string>): string {
    if |lines| == 0 then Untitled
    else if IsHeading(lines[0]) then Strip(lines[0][2..])
    else FirstHeading(lines[1..])
  }

  /** `_extract_title`: the title of a markdown text. */
  function ExtractTitle(content: string): string {
    FirstHeading(Split(content, '\n'))
  }

  /** The title is the stripped remainder of the first line that starts with `"# "`. */
  lemma {:induction false} FirstHeadingAt(lines: seq<string>, i: nat)
    requires i < |lines| && IsHeading(lines[i])
    requires forall j :: 0 <= j < i ==> !IsHeading(lines[j])
    ensures FirstHeading(lines) == Strip(lines[i][2..])
  {
    if i > 0 {
      assert !IsHeading(lines[0]);
      FirstHeadingAt(lines[1..], i - 1);
    }
  }

  /** Without a heading line the title is `"Document sans titre"`. */
  lemma {:induction false} FirstHeadingNone(lines: seq<string>)
    requires forall j :: 0 <= j < |lines| ==> !IsHeading(lines[j])
    ensures FirstHeading(lines) == Untitled
  {
    if |lines| > 0 {
      assert !IsHeading(lines[0]);
      FirstHeadingNone(lines[1..]);
    }
  }

  /** Lines after the first heading do not matter. */
  lemma {:induction false} FirstHeadingPrefix(l1: seq<string>, l2: seq<string>)
    requires exists j :: 0 <= j < |l1| && IsHeading(l1[j])
    ensures FirstHeading(l1 + l2) == FirstHeading(l1)
  {
    if !IsHeading(l1[0]) {
      assert (l1 + l2)[1..] == l1[1..] + l2;
      var j :| 0 <= j < |l1| && IsHeading(l1[j]);
      assert IsHeading(l1[1..][j - 1]);
      FirstHeadingPrefix(l1[1..], l2);
    }
  }

  /** `_extract_title` returns the first heading of the text, stripped. */
  lemma ExtractTitleFirst(content: string, i: nat)
    requires i < |Split(content, '\n')| && IsHeading(Split(content, '\n')[i])
    requires forall j :: 0 <= j < i ==> !IsHeading(Split(content, '\n')[j])
    ensures ExtractTitle(content) == Strip(Split(content, '\n')[i][2..])
  {
    FirstHeadingAt(Split(content, '\n'), i);
  }

  /** `_extract_title` of a text without heading lines is the fixed fallback. */
  lemma ExtractTitleUntitled(content: string)
    requires forall j :: 0 <= j < |Split(content, '\n')| ==> !IsHeading(Split(content, '\n')[j])
    ensures ExtractTitle(content) == Untitled
  {
    FirstHeadingNone(Split(content, '\n'));
  }

  /** Once a text has a heading line, appending more lines leaves its title alone. */
  lemma ExtractTitleIgnoresRest(a: string, b: string)
    requires exists j :: 0 <= j < |Split(a, '\n')| && IsHeading(Split(a, '\n')[j])
    ensures ExtractTitle(a + "\n" + b) == ExtractTitle(a)
  {
    SplitConcat(a, '\n', b);
    FirstHeadingPrefix(Split(a, '\n'), Split(b, '\n'));
  }

  /** A text whose first line is a heading is titled by that line, whatever follows. */
  lemma ExtractTitleFirstLine(first: string, body: string)
    requires '\n' !in first && IsHeading(first)
    ensures ExtractTitle(first + "\n" + body) == Strip(first[2..])
  {
    SplitAtFirst(first, '\n', body);
    assert Split(first + "\n" + body, '\n')[0] == first;
  }

  /** A document opening with `# Interactions médicamenteuses` is titled `Interactions médicamenteuses`. */
  lemma ExtractTitleExample(body: string)
    ensures ExtractTitle("# Interactions médicamenteuses" + "\n" + body) == "Interactions médicamenteuses"
  {
    ExampleHeading();
    ExampleOneLine();
    ExtractTitleFirstLine("# Interactions médicamenteuses", body);
    ExampleStripped();
  }

  lemma ExampleHeading()
    ensures IsHeading("# Interactions médicamenteuses")
    ensures "# Interactions médicamenteuses"[2..] == "Interactions médicamenteuses"
  {
  }

  lemma ExampleOneLine()
    ensures '\n' !in "# Interactions médicamenteuses"
  {
    var s := "# Interactions médicamenteuses";
    assert forall k :: 0 <= k < |s| ==> s[k] != '\n';
  }

  lemma ExampleStripped()
    ensures Strip("Interactions médicamenteuses") == "Interactions médicamenteuses"
  {
    var t := "Interactions médicamenteuses";
    assert [] + t + [] == t;
    StripPadded([], t, []);
  }

  // ---------------------------------------------------------------------------------
  // Chunk ids

  /** The chunk id `f"{filename}_{i}"`. */
  function ChunkId(filename: string, i: nat): string {
    filename + "_" + NatToString(i)
  }

  lemma DigitsHaveNoUnderscore(n: nat)
    ensures '_' !in NatToString(n)
  {
  }

  /**
   * Chunk ids determine both the file name and the index, even when the name itself holds
   * underscores: the index is what follows the last `_`.
   */
  lemma ChunkIdInjective(f1: string, i1: nat, f2: string, i2: nat)
    requires ChunkId(f1, i1) == ChunkId(f2, i2)
    ensures f1 == f2 && i1 == i2
  {
    DigitsHaveNoUnderscore(i1);
    DigitsHaveNoUnderscore(i2);
    SplitAtLast(f1, NatToString(i1), f2, NatToString(i2), '_');
    NatToStringInjective(i1, i2);
  }

  // ---------------------------------------------------------------------------------
  // Loading

  /**
   * What `chunk_text` returns: the decoded windows of `maxTokens` tokens, `maxTokens - overlap`
   * apart, or `None` when encoding raises.
   */
  function Chunks(tk: Tokenizer, text: string, maxTokens: nat, overlap: nat): Option<seq<string>>
    requires overlap < maxTokens
  {
    match tk.encode(text)
    case None => None
    case Some(tokens) => Some(Decoded(tk, tokens, maxTokens, overlap))
  }

  /** The decoded windows of `tokens`. */
  function Decoded(tk: Tokenizer, tokens: seq<Token>, maxTokens: nat, overlap: nat): seq<string>
    requires overlap < maxTokens
  {
    var step := maxTokens - overlap;
    seq(RangeCount(|tokens|, step), k requires 0 <= k => tk.decode(Window(tokens, k * step, maxTokens)))
  }

  /**
   * The documents `load_documents` makes of one file: one per chunk, all with the file's title;
   * none when the file cannot be read or its text cannot be encoded (both raise inside the `try`).
   */
  function FileDocuments(tk: Tokenizer, f: MarkdownFile): seq<Document> {
    match f.content
    case None => []
    case Some(content) =>
      match Chunks(tk, content, ChunkMaxTokens, ChunkOverlap)
      case None => []
      case Some(chunks) =>
        seq(|chunks|, i requires 0 <= i < |chunks| => Document(chunks[i], f.name, ExtractTitle(content), ChunkId(f.name, i)))
  }

  /** The documents of all files, file after file. */
  function DocumentsOf(tk: Tokenizer, files: seq<MarkdownFile>): seq<Document> {
    if |files| == 0 then []
    else DocumentsOf(tk, files[..|files| - 1]) + FileDocuments(tk, files[|files| - 1])
  }

  /** Loading two groups of files is loading each, in order. */
  lemma {:induction false} DocumentsOfConcat(tk: Tokenizer, a: seq<MarkdownFile>, b: seq<MarkdownFile>)
    ensures DocumentsOf(tk, a + b) == DocumentsOf(tk, a) + DocumentsOf(tk, b)
    decreases |b|
  {
    if |b| == 0 {
      assert a + b == a;
    } else {
      var k := |b| - 1;
      calc {
        DocumentsOf(tk, a + b);
        DocumentsOf(tk, (a + b)[..|a + b| - 1]) + FileDocuments(tk, (a + b)[|a + b| - 1]);
        { assert (a + b)[..|a + b| - 1] == a + b[..k]; assert (a + b)[|a + b| - 1] == b[k]; }
        DocumentsOf(tk, a + b[..k]) + FileDocuments(tk, b[k]);
        { DocumentsOfConcat(tk, a, b[..k]); }
        DocumentsOf(tk, a) + DocumentsOf(tk, b[..k]) + FileDocuments(tk, b[k]);
      }
    }
  }

  /**
   * A file that cannot be read, or whose text the tokenizer refuses, contributes nothing: the
   * documents are those of the other files, as when the `except` clause swallows the error.
   */
  lemma FailingFileAddsNothing(tk: Tokenizer, a: seq<MarkdownFile>, f: MarkdownFile, b: seq<MarkdownFile>)
    requires f.content.None? || tk.encode(f.content.value).None?
    ensures DocumentsOf(tk, a + [f] + b) == DocumentsOf(tk, a) + DocumentsOf(tk, b)
  {
    assert FileDocuments(tk, f) == [];
    assert [f][..0] == [];
    assert DocumentsOf(tk, [f]) == DocumentsOf(tk, []) + FileDocuments(tk, f);
    DocumentsOfConcat(tk, a, [f]);
    DocumentsOfConcat(tk, a + [f], b);
  }

  /** `d` belongs to one of `files`: it carries that file's name and a chunk id made from it. */
  ghost predicate FromFile(files: seq<MarkdownFile>, d: Document) {
    exists fi, i: nat :: 0 <= fi < |files| && d.filename == files[fi].name && d.chunkId == ChunkId(files[fi].name, i)
  }

  /** Every document comes from one of the files and is keyed by that file's name and a chunk index. */
  lemma {:induction false} DocumentsShape(tk: Tokenizer, files: seq<MarkdownFile>)
    ensures forall p :: 0 <= p < |DocumentsOf(tk, files)| ==> FromFile(files, DocumentsOf(tk, files)[p])
  {
    if |files| > 0 {
      var k := |files| - 1;
      var pre := DocumentsOf(tk, files[..k]);
      var add := FileDocuments(tk, files[k]);
      var docs: seq<Document> := pre + add;
      DocumentsShape(tk, files[..k]);
      assert DocumentsOf(tk, files) == docs;
      forall p | 0 <= p < |docs| ensures FromFile(files, docs[p]) {
        if p < |pre| {
          assert FromFile(files[..k], pre[p]);
          var fi, i: nat :| 0 <= fi < k && pre[p].filename == files[..k][fi].name && pre[p].chunkId == ChunkId(files[..k][fi].name, i);
          assert files[fi] == files[..k][fi];
          assert docs[p] == pre[p];
        } else {
          assert docs[p] == add[p - |pre|];
          assert docs[p].filename == files[k].name;
          assert docs[p].chunkId == ChunkId(files[k].name, p - |pre|);
        }
      }
    }
  }

  /** Files with distinct names give documents with pairwise distinct chunk ids. */
  lemma {:induction false} DocumentIdsDistinct(tk: Tokenizer, files: seq<MarkdownFile>)
    requires forall i, j :: 0 <= i < j < |files| ==> files[i].name != files[j].name
    ensures forall p, q :: 0 <= p < q < |DocumentsOf(tk, files)| ==>
              DocumentsOf(tk, files)[p].chunkId != DocumentsOf(tk, files)[q].chunkId
  {
    if |files| > 0 {
      var k := |files| - 1;
      var pre := DocumentsOf(tk, files[..k]);
      var add := FileDocuments(tk, files[k]);
      var docs: seq<Document> := pre + add;
      DocumentIdsDistinct(tk, files[..k]);
      DocumentsShape(tk, files[..k]);
      assert DocumentsOf(tk, files) == docs;
      forall p, q | 0 <= p < q < |docs|
        ensures docs[p].chunkId != docs[q].chunkId
      {
        var name := files[k].name;
        if q < |pre| {
          assert docs[p] == pre[p] && docs[q] == pre[q];
        } else if p >= |pre| {
          assert docs[p].chunkId == ChunkId(name, p - |pre|);
          assert docs[q].chunkId == ChunkId(name, q - |pre|);
          if ChunkId(name, p - |pre|) == ChunkId(name, q - |pre|) {
            ChunkIdInjective(name, p - |pre|, name, q - |pre|);
          }
        } else {
          assert FromFile(files[..k], pre[p]);
          var fi, i: nat :| 0 <= fi < k && pre[p].filename == files[..k][fi].name && pre[p].chunkId == ChunkId(files[..k][fi].name, i);
          assert files[fi] == files[..k][fi];
          assert docs[p] == pre[p];
          assert docs[q].chunkId == ChunkId(name, q - |pre|);
          if ChunkId(files[fi].name, i) == ChunkId(name, q - |pre|) {
            ChunkIdInjective(files[fi].name, i, name, q - |pre|);
          }
        }
      }
    }
  }

  // ---------------------------------------------------------------------------------
  // Building, searching, answering

  /** How the build turns a document into the stored text, id and metadata. */
  function DocText(d: Document): string { d.content }
  function DocId(d: Document, position: nat): string { d.chunkId }
  function MetaOf(d: Document): ChunkMeta { ChunkMeta(d.filename, d.title, d.chunkId) }

  /** The list comprehensions of `build_database` over one batch. */
  function Contents(batch: seq<Document>): (texts: seq<string>)
    ensures |texts| == |batch| && forall j :: 0 <= j < |batch| ==> texts[j] == batch[j].content
  {
    seq(|batch|, j requires 0 <= j < |batch| => batch[j].content)
  }

  function ChunkIds(batch: seq<Document>): (ids: seq<string>)
    ensures |ids| == |batch| && forall j :: 0 <= j < |batch| ==> ids[j] == batch[j].chunkId
  {
    seq(|batch|, j requires 0 <= j < |batch| => batch[j].chunkId)
  }

  function Metas(batch: seq<Document>): (metas: seq<ChunkMeta>)
    ensures |metas| == |batch| && forall j :: 0 <= j < |batch| ==> metas[j] == MetaOf(batch[j])
  {
    seq(|batch|, j requires 0 <= j < |batch| => MetaOf(batch[j]))
  }

  /** The comprehensions agree with the generic batch views the build is specified by. */
  lemma BatchViews(documents: seq<Document>, b: nat)
    ensures BatchMap(documents, BatchSize, b, DocText) == Contents(Batch(documents, BatchSize, b))
    ensures BatchIds(documents, BatchSize, b, DocId) == ChunkIds(Batch(documents, BatchSize, b))
    ensures BatchMap(documents, BatchSize, b, MetaOf) == Metas(Batch(documents, BatchSize, b))
  {
    var w := Batch(documents, BatchSize, b);
    assert forall jj :: 0 <= jj < |w| ==> BatchMap(documents, BatchSize, b, DocText)[jj] == DocText(w[jj]) == w[jj].content;
    assert forall jj :: 0 <= jj < |w| ==> BatchIds(documents, BatchSize, b, DocId)[jj] == DocId(w[jj], b * BatchSize + jj) == w[jj].chunkId;
  }

  /** What one batch of the build does to the collection built so far, and that its `add` is allowed. */
  lemma BuildStep(documents: seq<Document>, b: nat, i: nat, embed: seq<string> -> seq<Vector>)
    requires ValidEmbedder(embed) && IdsDistinct(documents, DocId)
    requires i == b * BatchSize && i < |documents|
    ensures documents[i..Min(i + BatchSize, |documents|)] == Batch(documents, BatchSize, b)
    ensures var batch := Batch(documents, BatchSize, b);
            var e := embed(Contents(batch));
            var before := Built(documents, BatchSize, b, DocText, DocId, MetaOf, embed);
            && (|e| > 0 ==>
                  |e| == |batch| && Distinct(ChunkIds(batch))
                  && (forall j :: 0 <= j < |batch| ==> ChunkIds(batch)[j] !in before)
                  && Built(documents, BatchSize, b + 1, DocText, DocId, MetaOf, embed)
                       == before + Entries(ChunkIds(batch), e, Contents(batch), Metas(batch)))
            && (|e| == 0 ==> Built(documents, BatchSize, b + 1, DocText, DocId, MetaOf, embed) == before)
  {
    var before := Built(documents, BatchSize, b, DocText, DocId, MetaOf, embed);
    IdsDistinctPerBatch(documents, BatchSize, DocId);
    BatchViews(documents, b);
    BuiltFresh(documents, BatchSize, b, DocText, DocId, MetaOf, embed);
    if |embed(Contents(Batch(documents, BatchSize, b)))| == 0 {
      assert BatchEntries(documents, BatchSize, b, DocText, DocId, MetaOf, embed) == map[];
      assert before + map[] == before;
    }
  }

  /**
   * After a build every document sits under its chunk id iff its batch of ten was embedded,
   * with its text and `{filename, title, chunk_id}` metadata.
   */
  lemma BuildStoresDocuments(docs: seq<Document>, embed: seq<string> -> seq<Vector>, j: nat)
    requires ValidEmbedder(embed) && IdsDistinct(docs, DocId) && j < |docs|
    ensures var all := Built(docs, BatchSize, RangeCount(|docs|, BatchSize), DocText, DocId, MetaOf, embed);
            && (docs[j].chunkId in all <==> BatchOk(docs, BatchSize, j / BatchSize, DocText, embed))
            && (docs[j].chunkId in all ==>
                  all[docs[j].chunkId].document == docs[j].content
                  && all[docs[j].chunkId].metadata == ChunkMeta(docs[j].filename, docs[j].title, docs[j].chunkId))
  {
    BuiltItem(docs, BatchSize, DocText, DocId, MetaOf, embed, j);
  }

  /** After a build nothing but the documents' chunk ids is stored. */
  lemma BuildStoresNothingElse(docs: seq<Document>, embed: seq<string> -> seq<Vector>)
    requires ValidEmbedder(embed) && IdsDistinct(docs, DocId)
    ensures forall key :: key in Built(docs, BatchSize, RangeCount(|docs|, BatchSize), DocText, DocId, MetaOf, embed) ==>
              exists p :: 0 <= p < |docs| && docs[p].chunkId == key
  {
    var all := Built(docs, BatchSize, RangeCount(|docs|, BatchSize), DocText, DocId, MetaOf, embed);
    forall key | key in all ensures exists p :: 0 <= p < |docs| && docs[p].chunkId == key {
      var p := BuiltKeyOrigin(docs, BatchSize, DocText, DocId, MetaOf, embed, key);
      assert docs[p].chunkId == key;
    }
  }

  /** One search hit as `search_documents` reports it: the score is one minus the distance. */
  function Retrieval(h: Hit<ChunkMeta>): Retrieved {
    Retrieved(h.document, h.metadata.filename, h.metadata.title, 1.0 - h.distance)
  }

  /** A retrieved document is the text, file name and title of some stored chunk. */
  ghost predicate StoredChunk(entries: map<string, Entry<ChunkMeta>>, d: Retrieved) {
    exists key :: key in entries && entries[key].document == d.content
                  && entries[key].metadata.filename == d.filename && entries[key].metadata.title == d.title
  }

  /** One block of the context text: `"Document: <title>\n<content>"`. */
  function ContextBlock(d: Retrieved): string {
    "Document: " + d.title + "\n" + d.content
  }

  /** The context handed to the chat model: the blocks joined by blank lines. */
  function ContextText(context: seq<Retrieved>): string {
    Join(seq(|context|, k requires 0 <= k < |context| => ContextBlock(context[k])), "\n\n")
  }

  /** Every context document, with its title, reaches the chat model. */
  lemma ContextHasEveryDocument(context: seq<Retrieved>, k: nat)
    requires k < |context|
    ensures Contains(ContextText(context), ContextBlock(context[k]))
  {
    JoinContainsPart(seq(|context|, k requires 0 <= k < |context| => ContextBlock(context[k])), "\n\n", k);
  }

  /** The system with its collection and its foreign services. */
  class RagSystem {
    var collection: Collection<ChunkMeta>
    const tokenizer: Tokenizer
    /** `get_embeddings`: one vector per text, or `[]` when the provider call failed. */
    const embed: seq<string> -> seq<Vector>
    /** The index's `query(query_embeddings, n_results)`: the hits nearest first, `None` when it raised. */
    const nearest: (map<string, Entry<ChunkMeta>>, Vector, nat) -> Option<seq<Hit<ChunkMeta>>>
    /** The chat completion for a question and its context: the answer, or the error's message. */
    const complete: (string, string) -> Result<string, string>
    /** `round(x, 3)`. */
    const round3: real -> real

    constructor (collection: Collection<ChunkMeta>, tokenizer: Tokenizer, embed: seq<string> -> seq<Vector>,
                 nearest: (map<string, Entry<ChunkMeta>>, Vector, nat) -> Option<seq<Hit<ChunkMeta>>>,
                 complete: (string, string) -> Result<string, string>, round3: real -> real)
      ensures this.collection == collection && this.tokenizer == tokenizer && this.embed == embed
      ensures this.nearest == nearest && this.complete == complete && this.round3 == round3
    {
      this.collection := collection;
      this.tokenizer := tokenizer;
      this.embed := embed;
      this.nearest := nearest;
      this.complete := complete;
      this.round3 := round3;
    }

    /**
     * `chunk_text`: window `k` is the decoded slice of up to `maxTokens` tokens starting at
     * `k * (maxTokens - overlap)`, and there are `ceil(len(tokens) / (maxTokens - overlap))` windows.
     */
    method ChunkText(text: string, maxTokens: nat, overlap: nat) returns (result: Option<seq<string>>)
      requires overlap < maxTokens
      ensures tokenizer.encode(text).None? <==> result.None?
      ensures tokenizer.encode(text).Some? ==>
                var tokens := tokenizer.encode(text).value;
                |result.value| == RangeCount(|tokens|, maxTokens - overlap)
                && forall k :: 0 <= k < |result.value| ==>
                     result.value[k] == tokenizer.decode(Window(tokens, k * (maxTokens - overlap), maxTokens))
      ensures result == Chunks(tokenizer, text, maxTokens, overlap)
    {
      var encoded := tokenizer.encode(text);
      if encoded.None? {
        return None;
      }
      var tokens := encoded.value;
      var step := maxTokens - overlap;
      var chunks := [];
      var i := 0;
      while i < |tokens|
        invariant i == |chunks| * step
        invariant |chunks| == 0 || (|chunks| - 1) * step < |tokens|
        invariant forall k :: 0 <= k < |chunks| ==> chunks[k] == tokenizer.decode(Window(tokens, k * step, maxTokens))
        decreases |tokens| - i
      {
        var chunkTokens := Window(tokens, i, maxTokens);
        assert (|chunks| + 1) * step == i + step;
        chunks := chunks + [tokenizer.decode(chunkTokens)];
        i := i + step;
      }
      RangeCountIsCeiling(|tokens|, step, |chunks|);
      assert chunks == Decoded(tokenizer, tokens, maxTokens, overlap);
      result := Some(chunks);
    }

    /** `load_documents`: every readable file's chunks, in file order, with the file's title and chunk ids. */
    method LoadDocuments(files: seq<MarkdownFile>) returns (documents: seq<Document>)
      ensures documents == DocumentsOf(tokenizer, files)
    {
      documents := [];
      var n := 0;
      while n < |files|
        invariant 0 <= n <= |files|
        invariant documents == DocumentsOf(tokenizer, files[..n])
      {
        assert files[..n + 1][..n] == files[..n];
        documents := LoadFile(documents, files[n]);
        n := n + 1;
      }
      assert files[..n] == files;
    }

    /** One turn of `load_documents`' file loop: the file's documents appended, or nothing when it raises. */
    method LoadFile(documents: seq<Document>, f: MarkdownFile) returns (documents': seq<Document>)
      ensures documents' == documents + FileDocuments(tokenizer, f)
    {
      documents' := documents;
      if f.content.Some? {
        var content := f.content.value;
        var title := ExtractTitle(content);
        var result := ChunkText(content, ChunkMaxTokens, ChunkOverlap);
        if result.Some? {
          var chunks := result.value;
          ghost var added := FileDocuments(tokenizer, f);
          var i := 0;
          while i < |chunks|
            invariant 0 <= i <= |chunks| && |added| == |chunks|
            invariant documents' == documents + added[..i]
          {
            documents' := documents' + [Document(chunks[i], f.name, title, ChunkId(f.name, i))];
            assert added[..i + 1] == added[..i] + [added[i]];
            i := i + 1;
          }
          assert added[..i] == added;
        }
      }
    }

    /**
     * `build_database`: no documents leaves the collection alone; otherwise a fresh collection
     * receives, batch of ten after batch of ten, every batch whose embedding call succeeded
     * (what that collection then holds is `BuildStoresDocuments`).
     */
    method BuildDatabase(files: seq<MarkdownFile>)
      requires ValidEmbedder(embed)
      requires forall i, j :: 0 <= i < j < |files| ==> files[i].name != files[j].name
      modifies this
      ensures DocumentsOf(tokenizer, files) == [] ==> collection == old(collection)
      ensures var docs := DocumentsOf(tokenizer, files);
              docs != [] ==>
                fresh(collection)
                && collection.entries == Built(docs, BatchSize, RangeCount(|docs|, BatchSize), DocText, DocId, MetaOf, embed)
    {
      var documents := LoadDocuments(files);
      if |documents| == 0 {
        return;
      }
      DocumentIdsDistinct(tokenizer, files);
      IndexDocuments(documents);
    }

    /** The part of `build_database` after loading: a new collection, filled batch by batch. */
    method IndexDocuments(documents: seq<Document>)
      requires ValidEmbedder(embed) && IdsDistinct(documents, DocId) && |documents| > 0
      modifies this
      ensures fresh(collection)
      ensures collection.entries == Built(documents, BatchSize, RangeCount(|documents|, BatchSize), DocText, DocId, MetaOf, embed)
    {
      collection := new Collection();
      var i := 0;
      var b := 0;
      while i < |documents|
        invariant i == b * BatchSize
        invariant b == 0 || (b - 1) * BatchSize < |documents|
        invariant fresh(collection)
        invariant collection.entries == Built(documents, BatchSize, b, DocText, DocId, MetaOf, embed)
        decreases |documents| - i
      {
        AddBatch(documents, b, i);
        assert (b + 1) * BatchSize == i + BatchSize;
        b := b + 1;
        i := i + BatchSize;
      }
      RangeCountIsCeiling(|documents|, BatchSize, b);
    }

    /** One turn of the build loop: embed batch `b`, starting at document `i`, and add it when that succeeded. */
    method AddBatch(documents: seq<Document>, b: nat, i: nat)
      requires ValidEmbedder(embed) && IdsDistinct(documents, DocId)
      requires i == b * BatchSize && i < |documents|
      requires collection.entries == Built(documents, BatchSize, b, DocText, DocId, MetaOf, embed)
      modifies collection
      ensures collection.entries == Built(documents, BatchSize, b + 1, DocText, DocId, MetaOf, embed)
    {
      var batch := documents[i..Min(i + BatchSize, |documents|)];
      BuildStep(documents, b, i, embed);
      var texts := Contents(batch);
      var embeddings := embed(texts);
      if |embeddings| > 0 {
        collection.Add(ChunkIds(batch), embeddings, texts, Metas(batch));
      }
    }

    /** What `search_documents` returns for a query. */
    function SearchResult(query: string, n: nat): seq<Retrieved>
      reads this, collection
    {
      var e := embed([query]);
      if |e| == 0 then []
      else match nearest(collection.entries, e[0], n)
        case None => []
        case Some(hits) => seq(|hits|, i requires 0 <= i < |hits| => Retrieval(hits[i]))
    }

    /**
     * `search_documents`: one result per hit, in the index's order, with `score = 1 - distance`;
     * a failed embedding (the `[0]` of an empty list) or a failed query gives `[]`.
     */
    method SearchDocuments(query: string, n: nat) returns (documents: seq<Retrieved>)
      ensures |embed([query])| == 0 ==> documents == []
      ensures |embed([query])| > 0 && nearest(collection.entries, embed([query])[0], n).None? ==> documents == []
      ensures |embed([query])| > 0 && nearest(collection.entries, embed([query])[0], n).Some? ==>
                var hits := nearest(collection.entries, embed([query])[0], n).value;
                |documents| == |hits|
                && forall i :: 0 <= i < |hits| ==>
                     documents[i].content == hits[i].document
                     && documents[i].filename == hits[i].metadata.filename
                     && documents[i].title == hits[i].metadata.title
                     && documents[i].score == 1.0 - hits[i].distance
      ensures documents == SearchResult(query, n)
      ensures ValidIndex(nearest) ==>
                |documents| <= n
                && forall i :: 0 <= i < |documents| ==> StoredChunk(collection.entries, documents[i])
    {
      var e := embed([query]);
      if |e| == 0 {
        return [];
      }
      var results := nearest(collection.entries, e[0], n);
      if results.None? {
        return [];
      }
      var hits := results.value;
      documents := [];
      var i := 0;
      while i < |hits|
        invariant 0 <= i <= |hits|
        invariant documents == seq(i, k requires 0 <= k < i => Retrieval(hits[k]))
      {
        documents := documents + [Retrieved(hits[i].document, hits[i].metadata.filename, hits[i].metadata.title, 1.0 - hits[i].distance)];
        i := i + 1;
      }
      if ValidIndex(nearest) {
        assert |hits| <= n;
        forall k | 0 <= k < |documents| ensures StoredChunk(collection.entries, documents[k]) {
          var key := HitStored(nearest, collection.entries, e[0], n, k);
          assert documents[k] == Retrieval(hits[k]);
        }
      }
    }

    /** What `generate_answer` returns for a question and its context documents. */
    function AnswerFor(query: string, context: seq<Retrieved>): Answer {
      if context == [] then Answer(NothingInContext, [])
      else match complete(query, ContextText(context))
        case Success(answer) =>
          Answer(answer, seq(|context|, k requires 0 <= k < |context| =>
                               Source(context[k].title, context[k].filename, round3(context[k].score))))
        case Failure(message) => Answer(GenerationError + message, [])
    }

    /**
     * `generate_answer`: no context gives the fixed apology without asking the model; an answer
     * cites exactly one `{title, filename, score}` per context document, in order; a failed
     * generation gives the error message and no sources.
     */
    method GenerateAnswer(query: string, context: seq<Retrieved>) returns (result: Answer)
      ensures context == [] ==> result == Answer(NothingInContext, [])
      ensures context != [] && complete(query, ContextText(context)).Success? ==>
                result.answer == complete(query, ContextText(context)).value
                && |result.sources| == |context|
                && forall k :: 0 <= k < |context| ==>
                     result.sources[k] == Source(context[k].title, context[k].filename, round3(context[k].score))
      ensures context != [] && complete(query, ContextText(context)).Failure? ==>
                result == Answer(GenerationError + complete(query, ContextText(context)).error, [])
      ensures result == AnswerFor(query, context)
    {
      if |context| == 0 {
        return Answer(NothingInContext, []);
      }
      var contextText := ContextText(context);
      var response := complete(query, contextText);
      if response.Failure? {
        return Answer(GenerationError + response.error, []);
      }
      var sources := [];
      var i := 0;
      while i < |context|
        invariant 0 <= i <= |context|
        invariant sources == seq(i, k requires 0 <= k < i => Source(context[k].title, context[k].filename, round3(context[k].score)))
      {
        sources := sources + [Source(context[i].title, context[i].filename, round3(context[i].score))];
        i := i + 1;
      }
      result := Answer(response.value, sources);
    }

    /**
     * `ask_question`: the query is echoed; nothing retrieved gives the fixed answer and no
     * sources; otherwise the answer is `generate_answer`'s for the five nearest documents.
     */
    method AskQuestion(query: string) returns (r: Response)
      ensures r.query == query
      ensures SearchResult(query, SearchCount) == [] ==> r == Response(NothingRetrieved, [], query)
      ensures ValidIndex(nearest) && collection.entries == map[] ==> r == Response(NothingRetrieved, [], query)
      ensures SearchResult(query, SearchCount) != [] ==>
                r.answer == AnswerFor(query, SearchResult(query, SearchCount)).answer
                && r.sources == AnswerFor(query, SearchResult(query, SearchCount)).sources
    {
      if ValidIndex(nearest) && collection.entries == map[] && |embed([query])| > 0 {
        EmptyIndex(nearest, embed([query])[0], SearchCount);
      }
      var relevant := SearchDocuments(query, SearchCount);
      if |relevant| == 0 {
        return Response(NothingRetrieved, [], query);
      }
      var result := GenerateAnswer(query, relevant);
      r := Response(result.answer, result.sources, query);
    }
  }
}
