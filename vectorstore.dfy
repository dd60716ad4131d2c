/** Ingestion (`upload_pdfs_to_vectorstore`): the session's namespace of the
    vector index is cleared, every file's chunks are flattened into parallel
    lists of texts and metadata records, each record becomes a vector with an
    id built from its position and the hash of its source, and the vectors
    are written in batches of 100 into the session's namespace. Also the
    per-user session token (`get_session_id`).

    The PDF loader and text splitter, the embedding model, Python's `hash`
    and `uuid4` are inputs: functions passed in, or the fresh value itself. */
module VectorStore {
  import opened Common
  import opened Strings

  /** One chunk produced by the loader and splitter for a file: its text and
      the page recorded in its metadata, if any. */
  datatype FileChunk = FileChunk(content: string, page: Option<int>)

  /** The metadata stored with each vector. */
  datatype Record = Record(source: string, text: string, page: int)

  /** An embedding, as produced by the embedding model. */
  type Embedding = seq<real>

  datatype Vector = Vector(id: string, values: Embedding, meta: Record)

  datatype UploadResult = UploadResult(filesCount: nat, totalChunks: nat)

  /** A request made to the vector index. */
  datatype IndexCall = DeleteAllCall(namespace: string) | UpsertCall(namespace: string, batch: seq<Vector>)

  /** Line 102. */
  const BatchSize: nat := 100

  // ---------------------------------------------------------------------------
  // The vector index

  /** Writes `vs` in order into a namespace: a later vector with the same id
      replaces an earlier one. */
  function UpsertAll(m: map<string, Vector>, vs: seq<Vector>): map<string, Vector>
    decreases |vs|
  {
    if vs == [] then m else UpsertAll(m[vs[0].id := vs[0]], vs[1..])
  }

  lemma {:induction false} UpsertAllConcat(m: map<string, Vector>, a: seq<Vector>, b: seq<Vector>)
    ensures UpsertAll(m, a + b) == UpsertAll(UpsertAll(m, a), b)
    decreases |a|
  {
    if a != [] {
      assert (a + b)[0] == a[0] && (a + b)[1..] == a[1..] + b;
      UpsertAllConcat(m[a[0].id := a[0]], a[1..], b);
    } else {
      assert a + b == b;
    }
  }

  ghost predicate DistinctIds(vs: seq<Vector>) {
    forall i, j :: 0 <= i < j < |vs| ==> vs[i].id != vs[j].id
  }

  function Ids(vs: seq<Vector>): set<string> {
    set k | 0 <= k < |vs| :: vs[k].id
  }

  /** With pairwise distinct ids, writing `vs` adds exactly their ids, each
      holding its own vector, and leaves every other entry alone. */
  lemma {:induction false} UpsertAllSpec(m: map<string, Vector>, vs: seq<Vector>)
    requires DistinctIds(vs)
    ensures UpsertAll(m, vs).Keys == m.Keys + Ids(vs)
    ensures forall k :: 0 <= k < |vs| ==> UpsertAll(m, vs)[vs[k].id] == vs[k]
    ensures forall id :: id in m && id !in Ids(vs) ==> UpsertAll(m, vs)[id] == m[id]
    decreases |vs|
  {
    if vs != [] {
      var m' := m[vs[0].id := vs[0]];
      var rest := vs[1..];
      assert DistinctIds(rest) by {
        forall i, j | 0 <= i < j < |rest| ensures rest[i].id != rest[j].id {
          assert rest[i] == vs[i + 1] && rest[j] == vs[j + 1];
        }
      }
      UpsertAllSpec(m', rest);
      assert Ids(vs) == {vs[0].id} + Ids(rest) by {
        forall id | id in Ids(vs) ensures id in {vs[0].id} + Ids(rest) {
          var k :| 0 <= k < |vs| && vs[k].id == id;
          if k > 0 {
            assert rest[k - 1] == vs[k];
          }
        }
        forall id | id in Ids(rest) ensures id in Ids(vs) {
          var k :| 0 <= k < |rest| && rest[k].id == id;
          assert vs[k + 1] == rest[k];
        }
      }
      assert vs[0].id !in Ids(rest) by {
        forall k | 0 <= k < |rest| ensures rest[k].id != vs[0].id {
          assert rest[k] == vs[k + 1];
        }
      }
      forall k | 0 <= k < |vs| ensures UpsertAll(m, vs)[vs[k].id] == vs[k] {
        if k > 0 {
          assert rest[k - 1] == vs[k];
        }
      }
    }
  }

  /** The vectors of a namespace; a namespace never written is empty. */
  function NamespaceOf(namespaces: map<string, map<string, Vector>>, ns: string): map<string, Vector> {
    if ns in namespaces then namespaces[ns] else map[]
  }

  /** The abstract vector index: namespaces mapping ids to stored vectors,
      with the log of the requests made to it. */
  class VectorIndex {
    var namespaces: map<string, map<string, Vector>>
    ghost var calls: seq<IndexCall>

    constructor ()
      ensures namespaces == map[] && calls == []
    {
      namespaces := map[];
      calls := [];
    }

    function Namespace(ns: string): map<string, Vector>
      reads this
    {
      NamespaceOf(namespaces, ns)
    }

    /** `index.delete(delete_all=True, namespace=ns)`: empties the namespace,
        also when it holds nothing. */
    method DeleteAll(ns: string)
      modifies this
      ensures namespaces == old(namespaces) - {ns}
      ensures Namespace(ns) == map[]
      ensures calls == old(calls) + [DeleteAllCall(ns)]
    {
      namespaces := namespaces - {ns};
      calls := calls + [DeleteAllCall(ns)];
    }

    /** `index.upsert(vectors=batch, namespace=ns)`. */
    method Upsert(batch: seq<Vector>, ns: string)
      modifies this
      ensures namespaces == old(namespaces)[ns := UpsertAll(old(Namespace(ns)), batch)]
      ensures calls == old(calls) + [UpsertCall(ns, batch)]
    {
      namespaces := namespaces[ns := UpsertAll(Namespace(ns), batch)];
      calls := calls + [UpsertCall(ns, batch)];
    }
  }

  /** Lines 47-52: `clear_session_data`, wiping the session's namespace. */
  method ClearSessionData(index: VectorIndex, sessionId: string)
    modifies index
    ensures index.namespaces == old(index.namespaces) - {sessionId}
    ensures index.Namespace(sessionId) == map[]
    ensures index.calls == old(index.calls) + [DeleteAllCall(sessionId)]
  {
    index.DeleteAll(sessionId);
  }

  // ---------------------------------------------------------------------------
  // Session token

  /** The per-user session state holding the session token. */
  class SessionState {
    var sessionId: Option<string>

    constructor ()
      ensures sessionId == None
    {
      sessionId := None;
    }

    /** Lines 40-45: `get_session_id`. The stored token is returned
        unchanged; without one, `freshId` (a new `uuid4`) is stored and
        returned. Either way the token returned is the one now stored, so
        every later call returns it too. */
    method GetSessionId(freshId: string) returns (id: string)
      modifies this
      ensures old(sessionId).Some? ==> id == old(sessionId).value
      ensures old(sessionId).None? ==> id == freshId
      ensures sessionId == Some(id)
    {
      if sessionId.None? {
        sessionId := Some(freshId);
      }
      id := sessionId.value;
    }
  }

  // ---------------------------------------------------------------------------
  // Records

  /** Lines 78-84: the records of one file's chunks, a missing page read as 0. */
  function FileRecords(path: string, chunks: seq<FileChunk>): (r: seq<Record>)
    ensures |r| == |chunks|
  {
    seq(|chunks|, k requires 0 <= k < |chunks| => Record(path, chunks[k].content, chunks[k].page.GetOr(0)))
  }

  /** The number of chunks of all files. */
  function TotalChunks(paths: seq<string>, split: string -> seq<FileChunk>): nat {
    if paths == [] then 0 else TotalChunks(paths[..|paths| - 1], split) + |split(paths[|paths| - 1])|
  }

  /** The records of all files, in file order and then chunk order. */
  function Records(paths: seq<string>, split: string -> seq<FileChunk>): (r: seq<Record>)
    ensures |r| == TotalChunks(paths, split)
  {
    if paths == [] then []
    else
      var p := paths[|paths| - 1];
      Records(paths[..|paths| - 1], split) + FileRecords(p, split(p))
  }

  /** Record number `TotalChunks(paths[..f]) + c` is chunk `c` of file `f`. */
  lemma {:induction false} RecordAt(paths: seq<string>, split: string -> seq<FileChunk>, f: nat, c: nat)
    requires f < |paths| && c < |split(paths[f])|
    ensures TotalChunks(paths[..f], split) + c < |Records(paths, split)|
    ensures var chunk := split(paths[f])[c];
      Records(paths, split)[TotalChunks(paths[..f], split) + c] == Record(paths[f], chunk.content, chunk.page.GetOr(0))
  {
    var init := paths[..|paths| - 1];
    if f == |paths| - 1 {
      assert paths[..f] == init;
    } else {
      assert init[..f] == paths[..f] && init[f] == paths[f];
      RecordAt(init, split, f, c);
    }
  }

  /** Every record names one of the uploaded files as its source. */
  lemma {:induction false} RecordSources(paths: seq<string>, split: string -> seq<FileChunk>)
    ensures forall k :: 0 <= k < |Records(paths, split)| ==> Records(paths, split)[k].source in paths
  {
    if paths != [] {
      var init := paths[..|paths| - 1];
      var p := paths[|paths| - 1];
      RecordSources(init, split);
      var prev := Records(init, split);
      forall k | 0 <= k < |Records(paths, split)| ensures Records(paths, split)[k].source in paths {
        if k < |prev| {
          assert Records(paths, split)[k] == prev[k];
        } else {
          assert Records(paths, split)[k] == FileRecords(p, split(p))[k - |prev|];
        }
      }
    }
  }

  /** The texts parallel to the records. */
  function TextsOf(records: seq<Record>): (r: seq<string>)
    ensures |r| == |records|
  {
    seq(|records|, k requires 0 <= k < |records| => records[k].text)
  }

  /** Lines 62-86: for every file, in order, append each chunk's text to the
      texts and its record to the metadata. */
  method CollectChunks(filePaths: seq<string>, split: string -> seq<FileChunk>)
    returns (texts: seq<string>, metas: seq<Record>)
    ensures metas == Records(filePaths, split)
    ensures texts == TextsOf(metas)
  {
    texts, metas := [], [];
    for f := 0 to |filePaths|
      invariant metas == Records(filePaths[..f], split)
      invariant texts == TextsOf(metas)
    {
      var path := filePaths[f];
      var chunks := split(path);
      for c := 0 to |chunks|
        invariant metas == Records(filePaths[..f], split) + FileRecords(path, chunks[..c])
        invariant texts == TextsOf(metas)
      {
        assert FileRecords(path, chunks[..c + 1]) == FileRecords(path, chunks[..c]) + [Record(path, chunks[c].content, chunks[c].page.GetOr(0))];
        texts := texts + [chunks[c].content];
        metas := metas + [Record(path, chunks[c].content, chunks[c].page.GetOr(0))];
      }
      assert chunks[..|chunks|] == chunks;
      assert filePaths[..f + 1][..f] == filePaths[..f];
    }
    assert filePaths[..|filePaths|] == filePaths;
  }

  // ---------------------------------------------------------------------------
  // Vectors

  /** Line 96: `f"doc_{k}_{hash(source)}"`. */
  function VectorId(k: nat, sourceHash: int): string {
    "doc_" + NatToString(k) + "_" + IntToString(sourceHash)
  }

  /** A digit string followed by `_` is determined by the whole text. */
  lemma DigitsBeforeUnderscore(a: string, ra: string, b: string, rb: string)
    requires IsDigits(a) && IsDigits(b)
    requires a + "_" + ra == b + "_" + rb
    ensures a == b
  {
    var s, t := a + "_" + ra, b + "_" + rb;
    assert s[Min(|a|, |b|)] == t[Min(|a|, |b|)];
    assert a == s[..|a|] && b == t[..|b|];
  }

  /** Ids of different positions differ, whatever the hashes: the digits of
      the position run up to the first `_` after the prefix. */
  lemma VectorIdInjective(k1: nat, h1: int, k2: nat, h2: int)
    requires VectorId(k1, h1) == VectorId(k2, h2)
    ensures k1 == k2
  {
    VectorIdAfterPrefix(k1, h1);
    VectorIdAfterPrefix(k2, h2);
    DigitsBeforeUnderscore(NatToString(k1), IntToString(h1), NatToString(k2), IntToString(h2));
    NatToStringInjective(k1, k2);
  }

  lemma VectorIdAfterPrefix(k: nat, h: int)
    ensures VectorId(k, h)[4..] == NatToString(k) + "_" + IntToString(h)
  {
    var a, b := NatToString(k), IntToString(h);
    assert VectorId(k, h) == "doc_" + (a + "_" + b);
  }

  /** Line 96: the vector of position `k`. */
  function VectorAt(embeddings: seq<Embedding>, metas: seq<Record>, hash: string -> int, k: nat): Vector
    requires k < |embeddings| && k < |metas|
  {
    Vector(VectorId(k, hash(metas[k].source)), embeddings[k], metas[k])
  }

  /** Lines 93-99: one vector per pair of embedding and record, as `zip`
      pairs them (the shorter list decides). */
  function Vectors(embeddings: seq<Embedding>, metas: seq<Record>, hash: string -> int): (r: seq<Vector>)
    ensures |r| == Min(|embeddings|, |metas|)
  {
    seq(Min(|embeddings|, |metas|), k requires 0 <= k < Min(|embeddings|, |metas|) => VectorAt(embeddings, metas, hash, k))
  }

  /** All the ids of one upload are pairwise distinct. */
  lemma VectorIdsDistinct(embeddings: seq<Embedding>, metas: seq<Record>, hash: string -> int)
    ensures DistinctIds(Vectors(embeddings, metas, hash))
  {
    var vs := Vectors(embeddings, metas, hash);
    forall i, j | 0 <= i < j < |vs| ensures vs[i].id != vs[j].id {
      if vs[i].id == vs[j].id {
        VectorIdInjective(i, hash(metas[i].source), j, hash(metas[j].source));
      }
    }
  }

  /** Lines 93-99: build the vectors one by one. */
  method BuildVectors(embeddings: seq<Embedding>, metas: seq<Record>, hash: string -> int)
    returns (vectors: seq<Vector>)
    ensures vectors == Vectors(embeddings, metas, hash)
  {
    vectors := [];
    for k := 0 to Min(|embeddings|, |metas|)
      invariant |vectors| == k
      invariant forall j :: 0 <= j < k ==> vectors[j] == VectorAt(embeddings, metas, hash, j)
    {
      vectors := vectors + [VectorAt(embeddings, metas, hash, k)];
    }
  }

  // ---------------------------------------------------------------------------
  // Batches

  /** The slices `vs[i:i+BatchSize]` for i = start, start + BatchSize, ... */
  function BatchesFrom<T>(vs: seq<T>, start: nat): seq<seq<T>>
    decreases |vs| - start
  {
    if start >= |vs| then [] else [vs[start..Min(start + BatchSize, |vs|)]] + BatchesFrom(vs, start + BatchSize)
  }

  /** Lines 102-105: the batches sent to the index. */
  function Batches<T>(vs: seq<T>): seq<seq<T>> {
    BatchesFrom(vs, 0)
  }

  function Flatten<T>(bs: seq<seq<T>>): seq<T> {
    if bs == [] then [] else bs[0] + Flatten(bs[1..])
  }

  lemma {:induction false} BatchesFromSpec<T>(vs: seq<T>, start: nat)
    requires start <= |vs|
    ensures Flatten(BatchesFrom(vs, start)) == vs[start..]
    ensures |BatchesFrom(vs, start)| == (|vs| - start + BatchSize - 1) / BatchSize
    ensures forall b :: b in BatchesFrom(vs, start) ==> 0 < |b| <= BatchSize
    ensures forall k :: 0 <= k < |BatchesFrom(vs, start)| - 1 ==> |BatchesFrom(vs, start)[k]| == BatchSize
    decreases |vs| - start
  {
    if start < |vs| {
      var bs := BatchesFrom(vs, start);
      var next := start + BatchSize;
      if next < |vs| {
        BatchesFromSpec(vs, next);
        assert vs[start..] == vs[start..next] + vs[next..];
      } else {
        assert BatchesFrom(vs, next) == [];
        assert Flatten(bs) == vs[start..] + [];
      }
      assert bs[1..] == BatchesFrom(vs, next);
    }
  }

  /** Every batch holds between 1 and 100 vectors, all but the last exactly
      100; there are `ceil(n / 100)` of them, none for no vectors, and
      together they are the vectors in order. */
  lemma BatchesSpec<T>(vs: seq<T>)
    ensures Flatten(Batches(vs)) == vs
    ensures |Batches(vs)| == (|vs| + BatchSize - 1) / BatchSize
    ensures vs == [] <==> Batches(vs) == []
    ensures forall b :: b in Batches(vs) ==> 0 < |b| <= BatchSize
    ensures forall k :: 0 <= k < |Batches(vs)| - 1 ==> |Batches(vs)[k]| == BatchSize
  {
    BatchesFromSpec(vs, 0);
  }

  function UpsertCalls(ns: string, bs: seq<seq<Vector>>): (r: seq<IndexCall>)
    ensures |r| == |bs|
  {
    seq(|bs|, k requires 0 <= k < |bs| => UpsertCall(ns, bs[k]))
  }

  // ---------------------------------------------------------------------------
  // Upload

  /** The vectors an upload builds. */
  function Uploaded(filePaths: seq<string>, split: string -> seq<FileChunk>,
                    embed: seq<string> -> seq<Embedding>, hash: string -> int): seq<Vector> {
    var metas := Records(filePaths, split);
    Vectors(embed(TextsOf(metas)), metas, hash)
  }

  /** Lines 102-105: upsert `vectors` into namespace `ns` in slices of
      `BatchSize`, in order. Every request is the upsert of the next batch;
      the namespace ends as the vectors written one after another over what
      it held, and no other namespace changes. */
  method UpsertInBatches(index: VectorIndex, vectors: seq<Vector>, ns: string)
    modifies index
    ensures index.calls == old(index.calls) + UpsertCalls(ns, Batches(vectors))
    ensures index.namespaces - {ns} == old(index.namespaces) - {ns}
    ensures index.Namespace(ns) == UpsertAll(old(index.Namespace(ns)), vectors)
  {
    ghost var before := index.Namespace(ns);
    var i := 0;
    while i < |vectors|
      invariant index.calls + UpsertCalls(ns, BatchesFrom(vectors, i)) == old(index.calls) + UpsertCalls(ns, Batches(vectors))
      invariant index.namespaces - {ns} == old(index.namespaces) - {ns}
      invariant index.Namespace(ns) == UpsertAll(before, vectors[..Min(i, |vectors|)])
      decreases |vectors| - i
    {
      var batch := vectors[i..Min(i + BatchSize, |vectors|)];
      UpsertBatchStep(before, vectors, i);
      UpsertCallsCons(ns, batch, BatchesFrom(vectors, i + BatchSize));
      ghost var prev := index.namespaces;
      index.Upsert(batch, ns);
      MapUpdateOthers(prev, ns, index.Namespace(ns));
      i := i + BatchSize;
    }
    assert vectors[..|vectors|] == vectors;
  }

  /** Writing the next batch continues the vectors written so far. */
  lemma UpsertBatchStep(before: map<string, Vector>, vectors: seq<Vector>, i: nat)
    requires i < |vectors|
    ensures var j := Min(i + BatchSize, |vectors|);
      && UpsertAll(UpsertAll(before, vectors[..i]), vectors[i..j]) == UpsertAll(before, vectors[..j])
      && BatchesFrom(vectors, i) == [vectors[i..j]] + BatchesFrom(vectors, i + BatchSize)
  {
    var j := Min(i + BatchSize, |vectors|);
    UpsertAllConcat(before, vectors[..i], vectors[i..j]);
    assert vectors[..i] + vectors[i..j] == vectors[..j];
  }

  lemma UpsertCallsCons(ns: string, b: seq<Vector>, bs: seq<seq<Vector>>)
    ensures UpsertCalls(ns, [b] + bs) == [UpsertCall(ns, b)] + UpsertCalls(ns, bs)
  {
  }

  lemma MapUpdateOthers<K, V>(m: map<K, V>, k: K, v: V)
    ensures m[k := v] - {k} == m - {k}
  {
  }

  /** Lines 54-112: `upload_pdfs_to_vectorstore`. The session's namespace is
      cleared before anything is written; then every request is an upsert
      of the next batch into that namespace; afterwards the namespace holds
      exactly the built vectors under their ids, and no other namespace has
      changed. */
  method UploadPdfsToVectorstore(index: VectorIndex, filePaths: seq<string>, sessionId: string,
      split: string -> seq<FileChunk>, embed: seq<string> -> seq<Embedding>, hash: string -> int)
    returns (result: UploadResult)
    modifies index
    ensures result == UploadResult(|filePaths|, TotalChunks(filePaths, split))
    ensures var vs := Uploaded(filePaths, split, embed, hash);
      index.calls == old(index.calls) + [DeleteAllCall(sessionId)] + UpsertCalls(sessionId, Batches(vs))
    ensures index.namespaces - {sessionId} == old(index.namespaces) - {sessionId}
    ensures var vs := Uploaded(filePaths, split, embed, hash);
      && index.Namespace(sessionId).Keys == Ids(vs)
      && forall k :: 0 <= k < |vs| ==> index.Namespace(sessionId)[vs[k].id] == vs[k]
  {
    ClearSessionData(index, sessionId);
    ghost var cleared := index.namespaces;

    var texts, metas := CollectChunks(filePaths, split);
    var embeddings := embed(texts);
    var vectors := BuildVectors(embeddings, metas, hash);
    UpsertInBatches(index, vectors, sessionId);

    assert index.namespaces - {sessionId} == cleared - {sessionId};
    VectorIdsDistinct(embeddings, metas, hash);
    UpsertAllSpec(map[], vectors);

    result := UploadResult(|filePaths|, |texts|);
  }

  /** When the embedder returns one embedding per text, every chunk becomes
      a vector: the upload writes `total_chunks` vectors. */
  lemma UploadedCount(filePaths: seq<string>, split: string -> seq<FileChunk>,
                      embed: seq<string> -> seq<Embedding>, hash: string -> int)
    requires |embed(TextsOf(Records(filePaths, split)))| == |Records(filePaths, split)|
    ensures |Uploaded(filePaths, split, embed, hash)| == TotalChunks(filePaths, split)
  {
  }
}
