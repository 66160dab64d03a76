/**
 * The two pieces of logic the web layer (app.py) adds around `RAGSystem`: the source listing of
 * `/api/sources`, which groups the stored chunk metadata by file, and the request checks of
 * `/api/ask`. Routing, JSON encoding and the HTTP server are not modelled.
 */
module App {
  import opened Strings
  import opened Json
  import opened Rag

  /** One entry of the source listing: `{filename, title, chunk_count}`. */
  datatype SourceInfo = SourceInfo(filename: string, title: string, chunkCount: nat)

  // ---------------------------------------------------------------------------------
  // Source listing

  /** The number of chunks of file `f`. */
  function Count(metas: seq<ChunkMeta>, f: string): nat {
    if |metas| == 0 then 0
    else Count(metas[..|metas| - 1], f) + (if metas[|metas| - 1].filename == f then 1 else 0)
  }

  /** The position of the first chunk of file `f`, or `|metas|` when there is none. */
  function FirstOf(metas: seq<ChunkMeta>, f: string): (r: nat)
    ensures r <= |metas|
    ensures r < |metas| ==> metas[r].filename == f
    ensures forall i :: 0 <= i < r ==> metas[i].filename != f
  {
    if |metas| == 0 then 0
    else
      var p := FirstOf(metas[..|metas| - 1], f);
      if p < |metas| - 1 then p else if metas[|metas| - 1].filename == f then |metas| - 1 else |metas|
  }

  /** The distinct file names of the chunks, each where it first appears. */
  function Names(metas: seq<ChunkMeta>): seq<string> {
    if |metas| == 0 then []
    else
      var names := Names(metas[..|metas| - 1]);
      if metas[|metas| - 1].filename in names then names else names + [metas[|metas| - 1].filename]
  }

  /** The listing entry of file `f`: the title of its first chunk and its number of chunks. */
  function Entry(metas: seq<ChunkMeta>, f: string): SourceInfo {
    var p := FirstOf(metas, f);
    SourceInfo(f, if p < |metas| then metas[p].title else "", Count(metas, f))
  }

  /** What `get_sources` lists: one entry per file, in the order of the files' first chunks. */
  function Listing(metas: seq<ChunkMeta>): seq<SourceInfo> {
    var names := Names(metas);
    seq(|names|, k requires 0 <= k < |names| => Entry(metas, names[k]))
  }

  /** How one more chunk moves the first positions and the counts. */
  lemma {:induction false} Snoc(m: seq<ChunkMeta>, x: ChunkMeta, f: string)
    ensures FirstOf(m + [x], f) == (if FirstOf(m, f) < |m| then FirstOf(m, f) else if x.filename == f then |m| else |m| + 1)
    ensures Count(m + [x], f) == Count(m, f) + (if x.filename == f then 1 else 0)
    ensures (m + [x])[..|m|] == m && Names(m + [x]) == (if x.filename in Names(m) then Names(m) else Names(m) + [x.filename])
  {
    assert (m + [x])[..|m|] == m;
  }

  /** A file with no chunk has a count of zero. */
  lemma {:induction false} CountAbsent(metas: seq<ChunkMeta>, f: string)
    requires FirstOf(metas, f) == |metas|
    ensures Count(metas, f) == 0
  {
    if |metas| > 0 {
      var m := metas[..|metas| - 1];
      assert FirstOf(m, f) == |m|;
      CountAbsent(m, f);
    }
  }

  /**
   * The listed names are pairwise distinct, a name is listed iff some chunk carries it, and the
   * names are in the order of their first chunks.
   */
  lemma NamesSpec(metas: seq<ChunkMeta>)
    ensures forall a, b :: 0 <= a < b < |Names(metas)| ==> Names(metas)[a] != Names(metas)[b]
    ensures forall f :: f in Names(metas) <==> FirstOf(metas, f) < |metas|
    ensures forall a, b :: 0 <= a < b < |Names(metas)| ==> FirstOf(metas, Names(metas)[a]) < FirstOf(metas, Names(metas)[b])
  {
    NamesDistinct(metas);
    forall f ensures f in Names(metas) <==> FirstOf(metas, f) < |metas| {
      NamesMember(metas, f);
    }
    NamesOrdered(metas);
  }

  /** A file is listed iff it has a chunk. */
  lemma {:induction false} NamesMember(metas: seq<ChunkMeta>, f: string)
    ensures f in Names(metas) <==> FirstOf(metas, f) < |metas|
  {
    if |metas| > 0 {
      var m := metas[..|metas| - 1];
      var x := metas[|metas| - 1];
      assert metas == m + [x];
      NamesMember(m, f);
      Snoc(m, x, f);
    }
  }

  lemma {:induction false} NamesDistinct(metas: seq<ChunkMeta>)
    ensures forall a, b :: 0 <= a < b < |Names(metas)| ==> Names(metas)[a] != Names(metas)[b]
  {
    if |metas| > 0 {
      var m := metas[..|metas| - 1];
      var x := metas[|metas| - 1];
      assert metas == m + [x];
      NamesDistinct(m);
      Snoc(m, x, x.filename);
    }
  }

  lemma {:induction false} NamesOrdered(metas: seq<ChunkMeta>)
    ensures forall a, b :: 0 <= a < b < |Names(metas)| ==> FirstOf(metas, Names(metas)[a]) < FirstOf(metas, Names(metas)[b])
  {
    if |metas| > 0 {
      var m := metas[..|metas| - 1];
      var x := metas[|metas| - 1];
      assert metas == m + [x];
      NamesOrdered(m);
      var names := Names(m);
      Snoc(m, x, x.filename);
      forall k | 0 <= k < |names|
        ensures FirstOf(metas, names[k]) == FirstOf(m, names[k]) < |m|
      {
        NamesMember(m, names[k]);
        Snoc(m, x, names[k]);
      }
      if x.filename !in names {
        NamesMember(m, x.filename);
        assert Names(metas) == names + [x.filename];
        assert FirstOf(metas, x.filename) == |m|;
      }
    }
  }

  /** Every file with a chunk gets one entry: the title of its first chunk, its number of chunks. */
  lemma ListingSpec(metas: seq<ChunkMeta>)
    ensures forall a, b :: 0 <= a < b < |Listing(metas)| ==> Listing(metas)[a].filename != Listing(metas)[b].filename
    ensures forall i :: 0 <= i < |metas| ==> exists k :: 0 <= k < |Listing(metas)| && Listing(metas)[k].filename == metas[i].filename
    ensures forall k :: 0 <= k < |Listing(metas)| ==>
              var p := FirstOf(metas, Listing(metas)[k].filename);
              p < |metas| && Listing(metas)[k].title == metas[p].title
              && Listing(metas)[k].chunkCount == Count(metas, Listing(metas)[k].filename) > 0
    ensures forall a, b :: 0 <= a < b < |Listing(metas)| ==>
              FirstOf(metas, Listing(metas)[a].filename) < FirstOf(metas, Listing(metas)[b].filename)
  {
    NamesSpec(metas);
    var names := Names(metas);
    forall i | 0 <= i < |metas| ensures exists k :: 0 <= k < |Listing(metas)| && Listing(metas)[k].filename == metas[i].filename {
      assert FirstOf(metas, metas[i].filename) <= i;
      var k :| 0 <= k < |names| && names[k] == metas[i].filename;
      assert Listing(metas)[k].filename == metas[i].filename;
    }
    forall f | f in names ensures Count(metas, f) > 0 {
      CountPresent(metas, f);
    }
  }

  /** A file with a chunk has a positive count. */
  lemma {:induction false} CountPresent(metas: seq<ChunkMeta>, f: string)
    requires FirstOf(metas, f) < |metas|
    ensures Count(metas, f) > 0
  {
    var m := metas[..|metas| - 1];
    if FirstOf(m, f) < |m| {
      CountPresent(m, f);
    }
  }

  /** The sum of the listed chunk counts. */
  function Total(groups: seq<SourceInfo>): nat {
    if |groups| == 0 then 0 else Total(groups[..|groups| - 1]) + groups[|groups| - 1].chunkCount
  }

  /** The chunks of `metas` counted file by file over `names`. */
  function CountOver(metas: seq<ChunkMeta>, names: seq<string>): nat {
    if |names| == 0 then 0 else CountOver(metas, names[..|names| - 1]) + Count(metas, names[|names| - 1])
  }

  /** Over distinct names, a name occurs once or not at all. */
  lemma {:induction false} CountOverSnoc(m: seq<ChunkMeta>, x: ChunkMeta, names: seq<string>)
    requires forall a, b :: 0 <= a < b < |names| ==> names[a] != names[b]
    ensures CountOver(m + [x], names) == CountOver(m, names) + (if x.filename in names then 1 else 0)
  {
    if |names| > 0 {
      var ns := names[..|names| - 1];
      CountOverSnoc(m, x, ns);
      Snoc(m, x, names[|names| - 1]);
      assert x.filename in names <==> x.filename in ns || x.filename == names[|names| - 1];
      if x.filename == names[|names| - 1] {
        assert x.filename !in ns;
      }
    }
  }

  lemma {:induction false} TotalListing(metas: seq<ChunkMeta>, names: seq<string>)
    requires names == Names(metas)
    ensures Total(Listing(metas)) == CountOver(metas, names)
  {
    var l := Listing(metas);
    TotalPrefix(metas, names, |names|);
    assert l[..|names|] == l;
    assert names[..|names|] == names;
  }

  lemma {:induction false} TotalPrefix(metas: seq<ChunkMeta>, names: seq<string>, n: nat)
    requires names == Names(metas) && n <= |names|
    ensures Total(Listing(metas)[..n]) == CountOver(metas, names[..n])
  {
    if n > 0 {
      TotalPrefix(metas, names, n - 1);
      assert Listing(metas)[..n][..n - 1] == Listing(metas)[..n - 1];
      assert names[..n][..n - 1] == names[..n - 1];
    }
  }

  /** The counts of the listing add up to the number of chunks. */
  lemma {:induction false} ListingTotal(metas: seq<ChunkMeta>)
    ensures Total(Listing(metas)) == |metas|
  {
    TotalListing(metas, Names(metas));
    CountOverAll(metas);
  }

  lemma {:induction false} CountOverAll(metas: seq<ChunkMeta>)
    ensures CountOver(metas, Names(metas)) == |metas|
  {
    if |metas| > 0 {
      var m := metas[..|metas| - 1];
      var x := metas[|metas| - 1];
      assert metas == m + [x];
      CountOverAll(m);
      NamesSpec(m);
      Snoc(m, x, x.filename);
      CountOverSnoc(m, x, Names(m));
      if x.filename !in Names(m) {
        var names := Names(m) + [x.filename];
        assert names[..|names| - 1] == Names(m);
        assert FirstOf(m, x.filename) == |m|;
        CountAbsent(m, x.filename);
      }
    }
  }


  /** One more chunk of another file leaves the entry of `f` as it was. */
  lemma {:induction false} EntryOther(m: seq<ChunkMeta>, x: ChunkMeta, f: string)
    requires x.filename != f
    ensures Entry(m + [x], f) == Entry(m, f)
  {
    Snoc(m, x, f);
    var p := FirstOf(m, f);
    if p < |m| {
      assert (m + [x])[p] == m[p];
    }
  }

  /** One more chunk of `x.filename` adds one to its count, and gives it its title when it is the first. */
  lemma {:induction false} EntrySelf(m: seq<ChunkMeta>, x: ChunkMeta)
    ensures Entry(m + [x], x.filename) ==
            if FirstOf(m, x.filename) < |m| then Entry(m, x.filename).(chunkCount := Entry(m, x.filename).chunkCount + 1)
            else SourceInfo(x.filename, x.title, 1)
  {
    Snoc(m, x, x.filename);
    var p := FirstOf(m, x.filename);
    if p < |m| {
      assert (m + [x])[p] == m[p];
    } else {
      CountAbsent(m, x.filename);
      assert (m + [x])[|m|] == x;
    }
  }

  /**
   * `get_sources`: one pass over the stored metadata, a table keyed by file name holding each file's
   * entry, and the keys' insertion order; the listing is the table's entries in that order.
   */
  method GetSources(metas: seq<ChunkMeta>) returns (sources: seq<SourceInfo>)
    ensures sources == Listing(metas)
  {
    var table: map<string, SourceInfo> := map[];
    var order: seq<string> := [];
    var i := 0;
    while i < |metas|
      invariant 0 <= i <= |metas|
      invariant order == Names(metas[..i])
      invariant forall f :: f in table <==> f in order
      invariant forall f :: f in table ==> table[f] == Entry(metas[..i], f)
    {
      assert metas[..i + 1] == metas[..i] + [metas[i]];
      table, order := AddChunk(metas[..i], metas[i], table, order);
      i := i + 1;
    }
    assert metas[..i] == metas;
    sources := seq(|order|, k requires 0 <= k < |order| => table[order[k]]);
    ListingFromTable(metas, table, order, sources);
  }

  /** The body of the `get_sources` loop: count one more chunk of `x.filename`, registering the file if new. */
  method AddChunk(ghost m: seq<ChunkMeta>, x: ChunkMeta, table: map<string, SourceInfo>, order: seq<string>)
    returns (table': map<string, SourceInfo>, order': seq<string>)
    requires order == Names(m)
    requires forall f :: f in table <==> f in order
    requires forall f :: f in table ==> table[f] == Entry(m, f)
    ensures order' == Names(m + [x])
    ensures forall f :: f in table' <==> f in order'
    ensures forall f :: f in table' ==> table'[f] == Entry(m + [x], f)
  {
    NamesMember(m, x.filename);
    Snoc(m, x, x.filename);
    EntrySelf(m, x);
    forall f | f != x.filename ensures Entry(m + [x], f) == Entry(m, f) {
      EntryOther(m, x, f);
    }
    table', order' := table, order;
    if x.filename !in table' {
      table' := table'[x.filename := SourceInfo(x.filename, x.title, 0)];
      order' := order' + [x.filename];
    }
    table' := table'[x.filename := table'[x.filename].(chunkCount := table'[x.filename].chunkCount + 1)];
  }

  /** Reading the table in key order gives the listing. */
  lemma ListingFromTable(metas: seq<ChunkMeta>, table: map<string, SourceInfo>, order: seq<string>, sources: seq<SourceInfo>)
    requires order == Names(metas)
    requires forall f :: f in table <==> f in order
    requires forall f :: f in table ==> table[f] == Entry(metas, f)
    requires |sources| == |order| && forall k :: 0 <= k < |order| ==> order[k] in table && sources[k] == table[order[k]]
    ensures sources == Listing(metas)
  {
  }

  // ---------------------------------------------------------------------------------
  // The question endpoint

  /**
   * The JSON body of a request as `get_json()` sees it: it raises on a body that is not JSON
   * (`Malformed`), returns `None` (`Missing`), or returns an object.
   */
  datatype Body = Malformed | Missing | Object(fields: map<string, Value>)

  /** The outcome of the request checks: the question to answer, or an HTTP status and error text. */
  datatype Validation = Accepted(question: string) | Rejected(status: nat, error: string)

  const MissingQuestion := "Question manquante"
  const EmptyQuestion := "Question vide"
  const ServerError := "Erreur serveur: "

  /**
   * The checks at the top of `ask_question`: a body `get_json()` cannot parse raises, 500; no body
   * or no `question` key, 400; a `question` that is not a string makes `.strip()` raise, 500; blank
   * after stripping, 400; otherwise the stripped text.
   */
  function Validate(body: Body): Validation {
    if body.Malformed? then Rejected(500, ServerError)
    else if body.Missing? || "question" !in body.fields then Rejected(400, MissingQuestion)
    else match body.fields["question"]
      case Str(q) => if Strip(q) == "" then Rejected(400, EmptyQuestion) else Accepted(Strip(q))
      case _ => Rejected(500, ServerError)
  }

  /**
   * A question is accepted iff it is present, is a string, and is not blank; what is accepted is
   * non-empty, has no surrounding white space, and sits inside the submitted text with only white
   * space around it.
   */
  lemma ValidateAccepts(body: Body)
    ensures Validate(body).Accepted? <==>
              body.Object? && "question" in body.fields && body.fields["question"].Str?
              && exists k :: 0 <= k < |body.fields["question"].s| && !IsSpace(body.fields["question"].s[k])
    ensures Validate(body).Accepted? ==>
              var q := Validate(body).question;
              var s := body.fields["question"].s;
              q != "" && Strip(q) == q
              && exists i :: PaddedAt(s, q, i)
  {
    if Validate(body).Accepted? {
      StripIdempotent(body.fields["question"].s);
      StripWindow(body.fields["question"].s);
    }
  }

  /**
   * The two rejections: 500 for a body that is not JSON or a `question` that is not a string, 400
   * with `Question manquante` for no body or no `question`, 400 with `Question vide` for a blank one.
   */
  lemma ValidateRejects(body: Body)
    ensures Validate(body) == Rejected(500, ServerError) <==>
              body.Malformed? || (body.Object? && "question" in body.fields && !body.fields["question"].Str?)
    ensures Validate(body) == Rejected(400, MissingQuestion) <==>
              body.Missing? || (body.Object? && "question" !in body.fields)
    ensures Validate(body) == Rejected(400, EmptyQuestion) <==>
              body.Object? && "question" in body.fields && body.fields["question"].Str?
              && Strip(body.fields["question"].s) == ""
  {
  }

  /** Re-submitting an accepted question as it was accepted is accepted unchanged. */
  lemma ValidateIdempotent(body: Body)
    requires Validate(body).Accepted?
    ensures Validate(Object(map["question" := Str(Validate(body).question)])) == Validate(body)
  {
    StripIdempotent(body.fields["question"].s);
  }

  /** The reply of `/api/ask`: the answer with its sources and query, or an error with its status. */
  datatype Reply = Ok(answer: string, sources: seq<Source>, query: string) | Error(status: nat, error: string)

  /**
   * `/api/ask`: a rejected request gets its status and error; an accepted one gets the pipeline's
   * answer to the stripped question.
   */
  method Ask(rag: RagSystem, body: Body) returns (reply: Reply)
    ensures Validate(body).Rejected? ==> reply == Error(Validate(body).status, Validate(body).error)
    ensures Validate(body).Accepted? ==>
              var q := Validate(body).question;
              reply.Ok? && reply.query == q
              && (rag.SearchResult(q, SearchCount) == [] ==> reply.answer == NothingRetrieved && reply.sources == [])
              && (rag.SearchResult(q, SearchCount) != [] ==>
                    reply.answer == rag.AnswerFor(q, rag.SearchResult(q, SearchCount)).answer
                    && reply.sources == rag.AnswerFor(q, rag.SearchResult(q, SearchCount)).sources)
  {
    var v := Validate(body);
    if v.Rejected? {
      return Error(v.status, v.error);
    }
    var result := rag.AskQuestion(v.question);
    reply := Ok(result.answer, result.sources, result.query);
  }
}
