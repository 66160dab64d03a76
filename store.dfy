/**
 * A map-based stand-in for the vector collection both pipelines write to, and the
 * batched build both run over it: items are cut into batches of a fixed size, each
 * batch is embedded in one call, and a batch whose embedding result is empty
 * is skipped instead of being added.
 */
module Store {
  import opened Chunking
  import opened Wrappers

  /** An embedding: the provider's vector of floats. */
  type Vector = seq<real>

  /** One stored item: its vector, its indexed text and its metadata record. */
  datatype Entry<M> = Entry(embedding: Vector, document: string, metadata: M)

  /** One nearest-neighbour hit as the store's query returns it. */
  datatype Hit<M> = Hit(document: string, metadata: M, distance: real)

  /** The provider's contract for one embedding call: one vector per text, or `[]` when the call failed. */
  ghost predicate ValidEmbedder(embed: seq<string> -> seq<Vector>) {
    forall texts :: |embed(texts)| == 0 || |embed(texts)| == |texts|
  }

  /**
   * The index's contract for one query: `None` when the query failed, otherwise at most `n` hits,
   * each the document and metadata of a stored entry.
   */
  ghost predicate ValidIndex<M(!new)>(nearest: (map<string, Entry<M>>, Vector, nat) -> Option<seq<Hit<M>>>) {
    forall entries, v, n :: nearest(entries, v, n).Some? ==> FromEntries(entries, nearest(entries, v, n).value, n)
  }

  /** At most `n` hits, each one a stored entry's document and metadata. */
  ghost predicate FromEntries<M>(entries: map<string, Entry<M>>, hits: seq<Hit<M>>, n: nat) {
    |hits| <= n && forall i :: 0 <= i < |hits| ==> Stored(entries, hits[i])
  }

  /** The hit's document and metadata are those of some stored entry. */
  ghost predicate Stored<M>(entries: map<string, Entry<M>>, h: Hit<M>) {
    exists key :: key in entries && entries[key].document == h.document && entries[key].metadata == h.metadata
  }

  /** Hit `k` of a valid index's successful query is the document and metadata stored under `key`. */
  lemma HitStored<M(!new)>(nearest: (map<string, Entry<M>>, Vector, nat) -> Option<seq<Hit<M>>>,
                           entries: map<string, Entry<M>>, v: Vector, n: nat, k: nat) returns (key: string)
    requires ValidIndex(nearest) && nearest(entries, v, n).Some? && k < |nearest(entries, v, n).value|
    ensures key in entries
    ensures entries[key].document == nearest(entries, v, n).value[k].document
    ensures entries[key].metadata == nearest(entries, v, n).value[k].metadata
  {
    var hits := nearest(entries, v, n).value;
    assert Stored(entries, hits[k]);
    key :| key in entries && entries[key].document == hits[k].document && entries[key].metadata == hits[k].metadata;
  }

  /** A valid index queried on an empty collection finds nothing. */
  lemma EmptyIndex<M(!new)>(nearest: (map<string, Entry<M>>, Vector, nat) -> Option<seq<Hit<M>>>, v: Vector, n: nat)
    requires ValidIndex(nearest)
    ensures nearest(map[], v, n).None? || nearest(map[], v, n) == Some([])
  {
    if nearest(map[], v, n).Some? && |nearest(map[], v, n).value| > 0 {
      var key := HitStored(nearest, map[], v, n, 0);
      assert false;
    }
  }

  ghost predicate Distinct(ids: seq<string>) {
    forall i, j :: 0 <= i < j < |ids| ==> ids[i] != ids[j]
  }

  /** The entries one `add(ids, embeddings, documents, metadatas)` call stores, keyed by id. */
  function Entries<M>(ids: seq<string>, embeddings: seq<Vector>, documents: seq<string>, metadatas: seq<M>)
    : map<string, Entry<M>>
    requires |embeddings| == |ids| && |documents| == |ids| && |metadatas| == |ids|
    decreases |ids|
  {
    if |ids| == 0 then map[]
    else
      var k := |ids| - 1;
      Entries(ids[..k], embeddings[..k], documents[..k], metadatas[..k])[ids[k] := Entry(embeddings[k], documents[k], metadatas[k])]
  }

  /** With distinct ids, `add` stores exactly one entry per id, built from the values at the same position. */
  lemma EntriesAt<M>(ids: seq<string>, embeddings: seq<Vector>, documents: seq<string>, metadatas: seq<M>)
    requires |embeddings| == |ids| && |documents| == |ids| && |metadatas| == |ids|
    requires Distinct(ids)
    ensures forall key :: key in Entries(ids, embeddings, documents, metadatas) <==> key in ids
    ensures forall j :: 0 <= j < |ids| ==>
              Entries(ids, embeddings, documents, metadatas)[ids[j]] == Entry(embeddings[j], documents[j], metadatas[j])
  {
    EntriesKeys(ids, embeddings, documents, metadatas);
    EntriesValues(ids, embeddings, documents, metadatas);
  }

  /** `add` stores an entry under each of the ids, and under nothing else. */
  lemma {:induction false} EntriesKeys<M>(ids: seq<string>, embeddings: seq<Vector>, documents: seq<string>, metadatas: seq<M>)
    requires |embeddings| == |ids| && |documents| == |ids| && |metadatas| == |ids|
    ensures forall key :: key in Entries(ids, embeddings, documents, metadatas) <==> key in ids
    decreases |ids|
  {
    if |ids| > 0 {
      var k := |ids| - 1;
      EntriesKeys(ids[..k], embeddings[..k], documents[..k], metadatas[..k]);
      assert ids == ids[..k] + [ids[k]];
    }
  }

  /** With distinct ids, the entry under `ids[j]` is built from position `j`. */
  lemma {:induction false} EntriesValues<M>(ids: seq<string>, embeddings: seq<Vector>, documents: seq<string>, metadatas: seq<M>)
    requires |embeddings| == |ids| && |documents| == |ids| && |metadatas| == |ids|
    requires Distinct(ids)
    ensures forall j :: 0 <= j < |ids| ==>
              ids[j] in Entries(ids, embeddings, documents, metadatas)
              && Entries(ids, embeddings, documents, metadatas)[ids[j]] == Entry(embeddings[j], documents[j], metadatas[j])
    decreases |ids|
  {
    if |ids| > 0 {
      var k := |ids| - 1;
      var prev := Entries(ids[..k], embeddings[..k], documents[..k], metadatas[..k]);
      EntriesValues(ids[..k], embeddings[..k], documents[..k], metadatas[..k]);
      forall j | 0 <= j < k
        ensures Entries(ids, embeddings, documents, metadatas)[ids[j]] == Entry(embeddings[j], documents[j], metadatas[j])
      {
        assert ids[j] != ids[k];
        assert prev[ids[..k][j]] == Entry(embeddings[..k][j], documents[..k][j], metadatas[..k][j]);
      }
    }
  }

  /** The vector collection: a map from id to entry. A rebuild replaces the object wholesale. */
  class Collection<M> {
    var entries: map<string, Entry<M>>

    constructor ()
      ensures entries == map[]
    {
      entries := map[];
    }

    /** `collection.count()`. */
    function Count(): nat
      reads this
    {
      |entries|
    }

    /**
     * `collection.add(...)`: the four sequences run in parallel; ids must be new and distinct
     * (the store's policy on a colliding id is not modelled).
     */
    method Add(ids: seq<string>, embeddings: seq<Vector>, documents: seq<string>, metadatas: seq<M>)
      requires |embeddings| == |ids| && |documents| == |ids| && |metadatas| == |ids|
      requires Distinct(ids)
      requires forall j :: 0 <= j < |ids| ==> ids[j] !in entries
      modifies this
      ensures entries == old(entries) + Entries(ids, embeddings, documents, metadatas)
      ensures Count() == old(Count()) + |ids|
    {
      EntriesAt(ids, embeddings, documents, metadatas);
      var added := Entries(ids, embeddings, documents, metadatas);
      assert added.Keys == set j | 0 <= j < |ids| :: ids[j];
      assert entries.Keys !! added.Keys;
      DistinctCard(ids);
      entries := entries + added;
    }
  }

  lemma {:induction false} DistinctCard(ids: seq<string>)
    requires Distinct(ids)
    ensures |set j | 0 <= j < |ids| :: ids[j]| == |ids|
  {
    if |ids| > 0 {
      var k := |ids| - 1;
      DistinctCard(ids[..k]);
      var s := set j | 0 <= j < k :: ids[..k][j];
      assert (set j | 0 <= j < |ids| :: ids[j]) == s + {ids[k]};
      assert ids[k] !in s;
    }
  }

  // ---------------------------------------------------------------------------------
  // The batched build, shared by both pipelines. Item `j` goes into batch `j / size`;
  // `text`, `id` and `meta` say how an item becomes a document, an id (from the item and
  // its global position) and a metadata record.

  /** The items of batch `b`: `items[b * size : b * size + size]`. */
  function Batch<X>(items: seq<X>, size: nat, b: nat): seq<X> {
    Window(items, b * size, size)
  }

  /** `f` applied to each item of batch `b`: the batch's texts, or its metadata. */
  function BatchMap<X, Y>(items: seq<X>, size: nat, b: nat, f: X -> Y): (ys: seq<Y>)
    ensures |ys| == |Batch(items, size, b)|
  {
    var w := Batch(items, size, b);
    seq(|w|, jj requires 0 <= jj < |w| => f(w[jj]))
  }

  function BatchIds<X>(items: seq<X>, size: nat, b: nat, id: (X, nat) -> string): (ids: seq<string>)
    ensures |ids| == |Batch(items, size, b)|
  {
    var w := Batch(items, size, b);
    seq(|w|, jj requires 0 <= jj < |w| => id(w[jj], b * size + jj))
  }

  /** Batch `b` is added: its embedding call returned a non-empty result. */
  predicate BatchOk<X>(items: seq<X>, size: nat, b: nat, text: X -> string, embed: seq<string> -> seq<Vector>) {
    |embed(BatchMap(items, size, b, text))| > 0
  }

  /** What batch `b` adds to the collection. */
  function BatchEntries<X, M>(items: seq<X>, size: nat, b: nat, text: X -> string, id: (X, nat) -> string,
                              meta: X -> M, embed: seq<string> -> seq<Vector>): map<string, Entry<M>>
  {
    var texts := BatchMap(items, size, b, text);
    var e := embed(texts);
    if |e| > 0 && |e| == |texts| then Entries(BatchIds(items, size, b, id), e, texts, BatchMap(items, size, b, meta))
    else map[]
  }

  /** The collection after the first `b` batches of a build that started from an empty collection. */
  function Built<X, M>(items: seq<X>, size: nat, b: nat, text: X -> string, id: (X, nat) -> string,
                       meta: X -> M, embed: seq<string> -> seq<Vector>): map<string, Entry<M>>
    decreases b
  {
    if b == 0 then map[]
    else Built(items, size, b - 1, text, id, meta, embed) + BatchEntries(items, size, b - 1, text, id, meta, embed)
  }

  /** The ids a build gives its items are pairwise distinct. */
  ghost predicate IdsDistinct<X>(items: seq<X>, id: (X, nat) -> string) {
    forall j1, j2 :: 0 <= j1 < j2 < |items| ==> id(items[j1], j1) != id(items[j2], j2)
  }

  /** The same, stated per batch position: two different positions never share an id. */
  ghost predicate BatchIdsDistinct<X>(items: seq<X>, size: nat, id: (X, nat) -> string) {
    forall b1: nat, jj1, b2: nat, jj2 ::
      0 <= jj1 < |BatchIds(items, size, b1, id)| && 0 <= jj2 < |BatchIds(items, size, b2, id)| && (b1 != b2 || jj1 != jj2)
      ==> BatchIds(items, size, b1, id)[jj1] != BatchIds(items, size, b2, id)[jj2]
  }

  /** The entry position `jj` of batch `b` gets when the batch is added. */
  function BatchEntry<X, M>(items: seq<X>, size: nat, b: nat, jj: nat, text: X -> string, meta: X -> M,
                            embed: seq<string> -> seq<Vector>): Entry<M>
    requires jj < |Batch(items, size, b)|
  {
    var texts := BatchMap(items, size, b, text);
    var e := embed(texts);
    Entry(if jj < |e| then e[jj] else [], texts[jj], BatchMap(items, size, b, meta)[jj])
  }

  lemma MulMonotoneLt(a: nat, b: nat, size: nat)
    requires a < b
    ensures a * size + size <= b * size
  {
    MulMonotone(a + 1, b, size);
    assert (a + 1) * size == a * size + size;
  }

  /** Two different batch positions are two different item positions. */
  lemma PositionsApart(size: nat, b1: nat, jj1: nat, b2: nat, jj2: nat)
    requires jj1 < size && jj2 < size && (b1 != b2 || jj1 != jj2)
    ensures b1 * size + jj1 != b2 * size + jj2
  {
    if b1 < b2 {
      MulMonotoneLt(b1, b2, size);
    } else if b2 < b1 {
      MulMonotoneLt(b2, b1, size);
    }
  }

  /** Position `jj` of batch `b` is item `b * size + jj`. */
  lemma BatchAt<X>(items: seq<X>, size: nat, b: nat, id: (X, nat) -> string, jj: nat)
    requires jj < |Batch(items, size, b)|
    ensures jj < size && b * size + jj < |items|
    ensures Batch(items, size, b)[jj] == items[b * size + jj]
    ensures BatchIds(items, size, b, id)[jj] == id(items[b * size + jj], b * size + jj)
  {
  }

  /** Distinct item ids give distinct ids across all batch positions. */
  lemma IdsDistinctPerBatch<X>(items: seq<X>, size: nat, id: (X, nat) -> string)
    requires IdsDistinct(items, id)
    ensures BatchIdsDistinct(items, size, id)
  {
    forall b1: nat, jj1, b2: nat, jj2 |
      0 <= jj1 < |BatchIds(items, size, b1, id)| && 0 <= jj2 < |BatchIds(items, size, b2, id)| && (b1 != b2 || jj1 != jj2)
      ensures BatchIds(items, size, b1, id)[jj1] != BatchIds(items, size, b2, id)[jj2]
    {
      BatchIdsApart(items, size, id, b1, jj1, b2, jj2);
    }
  }

  lemma BatchIdsApart<X>(items: seq<X>, size: nat, id: (X, nat) -> string, b1: nat, jj1: nat, b2: nat, jj2: nat)
    requires IdsDistinct(items, id)
    requires jj1 < |BatchIds(items, size, b1, id)| && jj2 < |BatchIds(items, size, b2, id)| && (b1 != b2 || jj1 != jj2)
    ensures BatchIds(items, size, b1, id)[jj1] != BatchIds(items, size, b2, id)[jj2]
  {
    var g1 := BatchPos(items, size, b1, id, jj1);
    var g2 := BatchPos(items, size, b2, id, jj2);
    PositionsApart(size, b1, jj1, b2, jj2);
    IdsApart(items, id, g1, g2);
  }

  /** `BatchAt`, naming the item position. */
  lemma BatchPos<X>(items: seq<X>, size: nat, b: nat, id: (X, nat) -> string, jj: nat) returns (g: nat)
    requires jj < |Batch(items, size, b)|
    ensures g == b * size + jj && g < |items|
    ensures BatchIds(items, size, b, id)[jj] == id(items[g], g)
  {
    BatchAt(items, size, b, id, jj);
    g := b * size + jj;
  }

  lemma IdsApart<X>(items: seq<X>, id: (X, nat) -> string, g1: nat, g2: nat)
    requires IdsDistinct(items, id) && g1 < |items| && g2 < |items| && g1 != g2
    ensures id(items[g1], g1) != id(items[g2], g2)
  {
    if g1 < g2 {
      assert id(items[g1], g1) != id(items[g2], g2);
    } else {
      assert id(items[g2], g2) != id(items[g1], g1);
    }
  }

  /** What one batch adds: one entry per position when its embedding succeeded, nothing otherwise. */
  lemma BatchStep<X, M>(items: seq<X>, size: nat, b: nat, text: X -> string, id: (X, nat) -> string,
                        meta: X -> M, embed: seq<string> -> seq<Vector>)
    requires ValidEmbedder(embed) && BatchIdsDistinct(items, size, id)
    ensures forall key :: key in BatchEntries(items, size, b, text, id, meta, embed) ==> key in BatchIds(items, size, b, id)
    ensures forall jj :: 0 <= jj < |Batch(items, size, b)| ==>
              ((BatchIds(items, size, b, id)[jj] in BatchEntries(items, size, b, text, id, meta, embed))
                 <==> BatchOk(items, size, b, text, embed))
              && (BatchOk(items, size, b, text, embed) ==>
                    BatchEntries(items, size, b, text, id, meta, embed)[BatchIds(items, size, b, id)[jj]]
                      == BatchEntry(items, size, b, jj, text, meta, embed))
  {
    var texts := BatchMap(items, size, b, text);
    var ids := BatchIds(items, size, b, id);
    var e := embed(texts);
    if |e| > 0 {
      assert |e| == |texts|;
      assert Distinct(ids);
      EntriesAt(ids, e, texts, BatchMap(items, size, b, meta));
    }
  }

  /** After `b` batches every key in the collection is the id of a position in one of those batches. */
  lemma {:induction false} BuiltKeys<X, M>(items: seq<X>, size: nat, b: nat, text: X -> string, id: (X, nat) -> string,
                                           meta: X -> M, embed: seq<string> -> seq<Vector>)
    requires ValidEmbedder(embed) && BatchIdsDistinct(items, size, id)
    ensures forall key :: key in Built(items, size, b, text, id, meta, embed) ==>
              exists b': nat, jj :: b' < b && 0 <= jj < |BatchIds(items, size, b', id)| && BatchIds(items, size, b', id)[jj] == key
    decreases b
  {
    if b > 0 {
      var add := BatchEntries(items, size, b - 1, text, id, meta, embed);
      var ids := BatchIds(items, size, b - 1, id);
      BuiltKeys(items, size, b - 1, text, id, meta, embed);
      BatchStep(items, size, b - 1, text, id, meta, embed);
      var pre := Built(items, size, b - 1, text, id, meta, embed);
      assert Built(items, size, b, text, id, meta, embed) == pre + add;
      forall key | key in pre + add
        ensures exists b': nat, jj :: b' < b && 0 <= jj < |BatchIds(items, size, b', id)| && BatchIds(items, size, b', id)[jj] == key
      {
        if key in add {
          var jj :| 0 <= jj < |ids| && ids[jj] == key;
          assert BatchIds(items, size, b - 1, id)[jj] == key;
        } else {
          assert key in pre;
          var b': nat, jj :| b' < b - 1 && 0 <= jj < |BatchIds(items, size, b', id)| && BatchIds(items, size, b', id)[jj] == key;
          assert b' < b;
        }
      }
    }
  }

  /** After `b` batches the collection holds exactly the positions of the successful batches among them. */
  lemma {:induction false} BuiltPrefix<X, M>(items: seq<X>, size: nat, b: nat, text: X -> string, id: (X, nat) -> string,
                                             meta: X -> M, embed: seq<string> -> seq<Vector>)
    requires ValidEmbedder(embed) && BatchIdsDistinct(items, size, id)
    ensures forall b': nat, jj :: b' < b && 0 <= jj < |Batch(items, size, b')| ==>
              ((BatchIds(items, size, b', id)[jj] in Built(items, size, b, text, id, meta, embed))
                 <==> BatchOk(items, size, b', text, embed))
              && (BatchOk(items, size, b', text, embed) ==>
                    Built(items, size, b, text, id, meta, embed)[BatchIds(items, size, b', id)[jj]]
                      == BatchEntry(items, size, b', jj, text, meta, embed))
    decreases b
  {
    if b > 0 {
      BuiltPrefix(items, size, b - 1, text, id, meta, embed);
      forall b': nat, jj | b' < b && 0 <= jj < |Batch(items, size, b')|
        ensures (BatchIds(items, size, b', id)[jj] in Built(items, size, b, text, id, meta, embed))
                <==> BatchOk(items, size, b', text, embed)
        ensures BatchOk(items, size, b', text, embed) ==>
                  Built(items, size, b, text, id, meta, embed)[BatchIds(items, size, b', id)[jj]]
                    == BatchEntry(items, size, b', jj, text, meta, embed)
      {
        if b' < b - 1 {
          OldBatchKept(items, size, b - 1, text, id, meta, embed, b', jj);
        } else {
          NewBatchStored(items, size, b - 1, text, id, meta, embed, jj);
        }
      }
    }
  }

  /** Adding batch `b` keeps what an earlier batch `b'` stored. */
  lemma OldBatchKept<X, M>(items: seq<X>, size: nat, b: nat, text: X -> string, id: (X, nat) -> string,
                           meta: X -> M, embed: seq<string> -> seq<Vector>, b': nat, jj: nat)
    requires ValidEmbedder(embed) && BatchIdsDistinct(items, size, id)
    requires b' < b && jj < |Batch(items, size, b')|
    ensures var key := BatchIds(items, size, b', id)[jj];
            var all := Built(items, size, b + 1, text, id, meta, embed);
            var pre := Built(items, size, b, text, id, meta, embed);
            (key in all <==> key in pre) && (key in pre ==> all[key] == pre[key])
  {
    var key := BatchIds(items, size, b', id)[jj];
    var pre := Built(items, size, b, text, id, meta, embed);
    var add := BatchEntries(items, size, b, text, id, meta, embed);
    assert Built(items, size, b + 1, text, id, meta, embed) == pre + add;
    NotInOtherBatch(items, size, b, text, id, meta, embed, b', jj);
    UnionLeft(pre, add, key);
  }

  /** After batch `b` is added, its positions are stored iff its embedding succeeded. */
  lemma NewBatchStored<X, M>(items: seq<X>, size: nat, b: nat, text: X -> string, id: (X, nat) -> string,
                             meta: X -> M, embed: seq<string> -> seq<Vector>, jj: nat)
    requires ValidEmbedder(embed) && BatchIdsDistinct(items, size, id)
    requires jj < |Batch(items, size, b)|
    ensures (BatchIds(items, size, b, id)[jj] in Built(items, size, b + 1, text, id, meta, embed))
            <==> BatchOk(items, size, b, text, embed)
    ensures BatchOk(items, size, b, text, embed) ==>
              Built(items, size, b + 1, text, id, meta, embed)[BatchIds(items, size, b, id)[jj]]
                == BatchEntry(items, size, b, jj, text, meta, embed)
  {
    var key := BatchIds(items, size, b, id)[jj];
    var pre := Built(items, size, b, text, id, meta, embed);
    var add := BatchEntries(items, size, b, text, id, meta, embed);
    assert Built(items, size, b + 1, text, id, meta, embed) == pre + add;
    NotInEarlierBatches(items, size, b, text, id, meta, embed, jj);
    BatchStepAt(items, size, b, text, id, meta, embed, jj);
    UnionRight(pre, add, key);
  }

  lemma UnionLeft<K, V>(m1: map<K, V>, m2: map<K, V>, k: K)
    requires k !in m2
    ensures (k in m1 + m2 <==> k in m1) && (k in m1 ==> (m1 + m2)[k] == m1[k])
  {
  }

  lemma UnionRight<K, V>(m1: map<K, V>, m2: map<K, V>, k: K)
    requires k !in m1
    ensures (k in m1 + m2 <==> k in m2) && (k in m2 ==> (m1 + m2)[k] == m2[k])
  {
  }

  /** `BatchStep` at one position. */
  lemma BatchStepAt<X, M>(items: seq<X>, size: nat, b: nat, text: X -> string, id: (X, nat) -> string,
                          meta: X -> M, embed: seq<string> -> seq<Vector>, jj: nat)
    requires ValidEmbedder(embed) && BatchIdsDistinct(items, size, id)
    requires jj < |Batch(items, size, b)|
    ensures (BatchIds(items, size, b, id)[jj] in BatchEntries(items, size, b, text, id, meta, embed))
            <==> BatchOk(items, size, b, text, embed)
    ensures BatchOk(items, size, b, text, embed) ==>
              BatchEntries(items, size, b, text, id, meta, embed)[BatchIds(items, size, b, id)[jj]]
                == BatchEntry(items, size, b, jj, text, meta, embed)
  {
    BatchStep(items, size, b, text, id, meta, embed);
  }

  /** A position of batch `b'` is not among the keys another batch `b` adds. */
  lemma NotInOtherBatch<X, M>(items: seq<X>, size: nat, b: nat, text: X -> string, id: (X, nat) -> string,
                              meta: X -> M, embed: seq<string> -> seq<Vector>, b': nat, jj: nat)
    requires ValidEmbedder(embed) && BatchIdsDistinct(items, size, id)
    requires b' != b && jj < |Batch(items, size, b')|
    ensures BatchIds(items, size, b', id)[jj] !in BatchEntries(items, size, b, text, id, meta, embed)
  {
    BatchStep(items, size, b, text, id, meta, embed);
  }

  /** A position of batch `b` is not among the keys of the batches before it. */
  lemma NotInEarlierBatches<X, M>(items: seq<X>, size: nat, b: nat, text: X -> string, id: (X, nat) -> string,
                                  meta: X -> M, embed: seq<string> -> seq<Vector>, jj: nat)
    requires ValidEmbedder(embed) && BatchIdsDistinct(items, size, id)
    requires jj < |Batch(items, size, b)|
    ensures BatchIds(items, size, b, id)[jj] !in Built(items, size, b, text, id, meta, embed)
  {
    BuiltKeys(items, size, b, text, id, meta, embed);
  }

  /** Batch `b` adds only ids that are new to the collection, and distinct among themselves. */
  lemma BuiltFresh<X, M>(items: seq<X>, size: nat, b: nat, text: X -> string, id: (X, nat) -> string,
                         meta: X -> M, embed: seq<string> -> seq<Vector>)
    requires ValidEmbedder(embed) && BatchIdsDistinct(items, size, id)
    ensures Distinct(BatchIds(items, size, b, id))
    ensures forall jj :: 0 <= jj < |BatchIds(items, size, b, id)| ==>
              BatchIds(items, size, b, id)[jj] !in Built(items, size, b, text, id, meta, embed)
  {
    BuiltKeys(items, size, b, text, id, meta, embed);
    var ids := BatchIds(items, size, b, id);
    forall jj | 0 <= jj < |ids| ensures ids[jj] !in Built(items, size, b, text, id, meta, embed) {
      if ids[jj] in Built(items, size, b, text, id, meta, embed) {
        assert false;
      }
    }
  }

  /** Batches from `RangeCount(|items|, size)` on are empty: the build visits every item. */
  lemma BatchesExhausted<X>(items: seq<X>, size: nat, b: nat)
    requires size > 0 && b >= RangeCount(|items|, size)
    ensures Batch(items, size, b) == []
  {
    var n := |items|;
    var c := RangeCount(n, size);
    assert n + size - 1 == c * size + (n + size - 1) % size;
    MulMonotone(c, b, size);
  }

  /**
   * A finished build holds exactly the positions of the successful batches: position `jj` of batch `b`
   * is stored under its id iff batch `b` was embedded, with that position's vector, text and metadata;
   * there is nothing else in the collection.
   */
  lemma BuiltContents<X, M>(items: seq<X>, size: nat, text: X -> string, id: (X, nat) -> string,
                            meta: X -> M, embed: seq<string> -> seq<Vector>)
    requires size > 0 && ValidEmbedder(embed) && IdsDistinct(items, id)
    ensures var all := Built(items, size, RangeCount(|items|, size), text, id, meta, embed);
            && (forall key :: key in all ==>
                  exists b: nat, jj :: 0 <= jj < |BatchIds(items, size, b, id)| && BatchIds(items, size, b, id)[jj] == key)
            && (forall b: nat, jj :: 0 <= jj < |Batch(items, size, b)| ==>
                  ((BatchIds(items, size, b, id)[jj] in all) <==> BatchOk(items, size, b, text, embed))
                  && (BatchOk(items, size, b, text, embed) ==>
                        all[BatchIds(items, size, b, id)[jj]] == BatchEntry(items, size, b, jj, text, meta, embed)))
  {
    var c := RangeCount(|items|, size);
    IdsDistinctPerBatch(items, size, id);
    BuiltKeys(items, size, c, text, id, meta, embed);
    BuiltPrefix(items, size, c, text, id, meta, embed);
    forall b: nat | b >= c ensures Batch(items, size, b) == [] {
      BatchesExhausted(items, size, b);
    }
  }

  /** Every key a whole build stores is the id of one of the items. */
  lemma BuiltKeyOrigin<X, M>(items: seq<X>, size: nat, text: X -> string, id: (X, nat) -> string,
                             meta: X -> M, embed: seq<string> -> seq<Vector>, key: string) returns (p: nat)
    requires size > 0 && ValidEmbedder(embed) && IdsDistinct(items, id)
    requires key in Built(items, size, RangeCount(|items|, size), text, id, meta, embed)
    ensures p < |items| && id(items[p], p) == key
  {
    BuiltContents(items, size, text, id, meta, embed);
    var b: nat, jj :| 0 <= jj < |BatchIds(items, size, b, id)| && BatchIds(items, size, b, id)[jj] == key;
    p := BatchPos(items, size, b, id, jj);
  }

  /** Item `j` sits in batch `j / size` at position `j % size`. */
  lemma ItemInBatch<X>(items: seq<X>, size: nat, j: nat)
    requires size > 0 && j < |items|
    ensures j % size < |Batch(items, size, j / size)|
    ensures Batch(items, size, j / size)[j % size] == items[j]
    ensures (j / size) * size + j % size == j
  {
    assert j == (j / size) * size + j % size;
  }

  /**
   * After a whole build, item `j` is stored under `id(items[j], j)` iff its batch was embedded, with
   * its text as the document and its metadata.
   */
  lemma BuiltItem<X, M>(items: seq<X>, size: nat, text: X -> string, id: (X, nat) -> string,
                        meta: X -> M, embed: seq<string> -> seq<Vector>, j: nat)
    requires size > 0 && ValidEmbedder(embed) && IdsDistinct(items, id) && j < |items|
    ensures var all := Built(items, size, RangeCount(|items|, size), text, id, meta, embed);
            && (id(items[j], j) in all <==> BatchOk(items, size, j / size, text, embed))
            && (id(items[j], j) in all ==>
                  all[id(items[j], j)].document == text(items[j]) && all[id(items[j], j)].metadata == meta(items[j]))
  {
    ItemInBatch(items, size, j);
    BuiltItemAt(items, size, text, id, meta, embed, j / size, j % size);
  }

  /** `BuiltItem`, for the item at position `jj` of batch `b`. */
  lemma BuiltItemAt<X, M>(items: seq<X>, size: nat, text: X -> string, id: (X, nat) -> string,
                          meta: X -> M, embed: seq<string> -> seq<Vector>, b: nat, jj: nat)
    requires size > 0 && ValidEmbedder(embed) && IdsDistinct(items, id) && jj < |Batch(items, size, b)|
    ensures b * size + jj < |items|
    ensures var all := Built(items, size, RangeCount(|items|, size), text, id, meta, embed);
            var j := b * size + jj;
            && (id(items[j], j) in all <==> BatchOk(items, size, b, text, embed))
            && (id(items[j], j) in all ==>
                  all[id(items[j], j)].document == text(items[j]) && all[id(items[j], j)].metadata == meta(items[j]))
  {
    var all := Built(items, size, RangeCount(|items|, size), text, id, meta, embed);
    BatchAt(items, size, b, id, jj);
    var key := BatchIds(items, size, b, id)[jj];
    BuiltContents(items, size, text, id, meta, embed);
    assert (key in all <==> BatchOk(items, size, b, text, embed));
    if key in all {
      var w := Batch(items, size, b);
      assert all[key] == BatchEntry(items, size, b, jj, text, meta, embed);
      assert BatchMap(items, size, b, text)[jj] == text(w[jj]);
      assert BatchMap(items, size, b, meta)[jj] == meta(w[jj]);
    }
  }
}
