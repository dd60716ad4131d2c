/** Where the two pipelines meet: what a question can retrieve once a
    session has uploaded its files. Ingestion writes only into the session's
    namespace (vectorstore.py line 105), but the query of `ask_question`
    names no namespace (query_handler.py line 44), so the index answers it
    from its default namespace. Both that query as written and the
    session-scoped query it evidently means are modelled here; the matches
    the retrieval model takes as input stand for the session-scoped one. */
module Isolation {
  import opened Common
  import opened VectorStore
  import opened QueryHandler

  /** The namespace the index uses for a request that names none. */
  const DefaultNamespace := ""

  /** The metadata a match carries for a stored record. */
  function MatchMeta(r: Record): Meta {
    Meta(Some(r.source), Some(r.text), Some(r.page), None)
  }

  /** The metadata a query against namespace `ns` can return: that of the
      vectors stored there. Similarity ranking and `top_k` only choose
      among these. */
  function Retrievable(namespaces: map<string, map<string, Vector>>, ns: string): set<Meta> {
    var m := NamespaceOf(namespaces, ns);
    set id | id in m :: MatchMeta(m[id].meta)
  }

  /** Line 44 as written: the session plays no part in the query. */
  function QueryAsWritten(namespaces: map<string, map<string, Vector>>, sessionId: string): set<Meta> {
    Retrievable(namespaces, DefaultNamespace)
  }

  /** The query scoped to the session's own namespace. */
  function SessionQuery(namespaces: map<string, map<string, Vector>>, sessionId: string): set<Meta> {
    Retrievable(namespaces, sessionId)
  }

  /** The metadata of the vectors of an upload. */
  function UploadedMetas(vs: seq<Vector>): set<Meta> {
    set k | 0 <= k < |vs| :: MatchMeta(vs[k].meta)
  }

  /** The namespaces `after` an upload of `vs` into session `sid` left
      `before` as they were, as `UploadPdfsToVectorstore` ensures: the
      session's namespace holds exactly the vectors under their ids and no
      other namespace has changed. */
  ghost predicate UploadedInto(before: map<string, map<string, Vector>>, after: map<string, map<string, Vector>>,
                               sid: string, vs: seq<Vector>) {
    && after - {sid} == before - {sid}
    && NamespaceOf(after, sid).Keys == Ids(vs)
    && forall k :: 0 <= k < |vs| ==> NamespaceOf(after, sid)[vs[k].id] == vs[k]
  }

  /** The modelled upload leaves the index in the state `UploadedInto`
      describes, so the lemmas below apply to it. */
  method UploadIntoSession(index: VectorIndex, filePaths: seq<string>, sessionId: string,
      split: string -> seq<FileChunk>, embed: seq<string> -> seq<Embedding>, hash: string -> int)
    returns (result: UploadResult)
    modifies index
    ensures result == UploadResult(|filePaths|, TotalChunks(filePaths, split))
    ensures UploadedInto(old(index.namespaces), index.namespaces, sessionId, Uploaded(filePaths, split, embed, hash))
  {
    result := UploadPdfsToVectorstore(index, filePaths, sessionId, split, embed, hash);
  }

  /** An upload changes nothing another session's query can see. */
  lemma UploadIsolated(before: map<string, map<string, Vector>>, after: map<string, map<string, Vector>>,
                       sid: string, vs: seq<Vector>, other: string)
    requires UploadedInto(before, after, sid, vs) && other != sid
    ensures SessionQuery(after, other) == SessionQuery(before, other)
  {
    assert other in after <==> other in after - {sid};
    assert other in before <==> other in before - {sid};
    if other in after {
      assert after[other] == (after - {sid})[other] == (before - {sid})[other] == before[other];
    }
  }

  /** After an upload the session's query sees exactly the uploaded records. */
  lemma SessionSeesUpload(before: map<string, map<string, Vector>>, after: map<string, map<string, Vector>>,
                          sid: string, vs: seq<Vector>)
    requires UploadedInto(before, after, sid, vs)
    ensures SessionQuery(after, sid) == UploadedMetas(vs)
  {
    var m := NamespaceOf(after, sid);
    forall x | x in SessionQuery(after, sid) ensures x in UploadedMetas(vs) {
      var id :| id in m && x == MatchMeta(m[id].meta);
      assert id in Ids(vs);
      var k :| 0 <= k < |vs| && vs[k].id == id;
      assert m[id] == vs[k];
    }
    forall x | x in UploadedMetas(vs) ensures x in SessionQuery(after, sid) {
      var k :| 0 <= k < |vs| && x == MatchMeta(vs[k].meta);
      assert vs[k].id in Ids(vs);
      assert m[vs[k].id] == vs[k];
    }
  }

  /** Line 44 as written: an upload into a session never changes what the
      query sees, so on an index whose default namespace is empty the query
      finds nothing after a non-empty upload, all of which the session's
      own namespace holds. */
  lemma AsWrittenQueryMissesUpload(before: map<string, map<string, Vector>>, after: map<string, map<string, Vector>>,
                                   sid: string, vs: seq<Vector>)
    requires UploadedInto(before, after, sid, vs) && sid != DefaultNamespace
    ensures QueryAsWritten(after, sid) == QueryAsWritten(before, sid)
    ensures NamespaceOf(before, DefaultNamespace) == map[] && vs != [] ==>
      QueryAsWritten(after, sid) == {} && SessionQuery(after, sid) != {}
  {
    UploadIsolated(before, after, sid, vs, DefaultNamespace);
    SessionSeesUpload(before, after, sid, vs);
    if vs != [] {
      assert MatchMeta(vs[0].meta) in UploadedMetas(vs);
    }
  }

  /** As written, a session that uploads into an index whose default
      namespace is empty gets the fixed no-information answer to every
      question, whatever it uploaded. */
  lemma AsWrittenNoAnswer(before: map<string, map<string, Vector>>, after: map<string, map<string, Vector>>,
                          sid: string, vs: seq<Vector>,
                          question: string, matches: seq<Match>, chain: (seq<Document>, string) -> ChainResult)
    requires UploadedInto(before, after, sid, vs) && sid != DefaultNamespace
    requires NamespaceOf(before, DefaultNamespace) == map[]
    requires forall m :: m in matches ==> m.meta in QueryAsWritten(after, sid)
    ensures Answered(question, matches, chain) == Answer(NoInfoResponse, [])
  {
    AsWrittenQueryMissesUpload(before, after, sid, vs);
    assert QueryAsWritten(before, sid) == {};
    ShortCircuit(question, matches, chain);
  }

  /** Every uploaded record names one of the uploaded files, and none
      claims to be a header. */
  lemma UploadedMetasFrom(filePaths: seq<string>, split: string -> seq<FileChunk>,
                          embed: seq<string> -> seq<Embedding>, hash: string -> int)
    ensures forall x :: x in UploadedMetas(Uploaded(filePaths, split, embed, hash)) ==>
      x.kind == None && x.source.Some? && x.source.value in filePaths
  {
    var vs := Uploaded(filePaths, split, embed, hash);
    var metas := Records(filePaths, split);
    RecordSources(filePaths, split);
    forall x | x in UploadedMetas(vs) ensures x.kind == None && x.source.Some? && x.source.value in filePaths {
      var k :| 0 <= k < |vs| && x == MatchMeta(vs[k].meta);
      assert vs[k].meta == metas[k];
    }
  }

  /** With the session-scoped query, once a session has uploaded its files,
      its answers cite only those files, given a chain that reports only
      documents of the context it was handed. */
  lemma SessionAnswerSources(before: map<string, map<string, Vector>>, after: map<string, map<string, Vector>>,
                             sid: string, filePaths: seq<string>, split: string -> seq<FileChunk>,
                             embed: seq<string> -> seq<Embedding>, hash: string -> int,
                             question: string, matches: seq<Match>, chain: (seq<Document>, string) -> ChainResult)
    requires UploadedInto(before, after, sid, Uploaded(filePaths, split, embed, hash))
    requires forall m :: m in matches ==> m.meta in SessionQuery(after, sid)
    requires forall d :: d in chain(RetrievalContext(matches), question).sourceDocuments.GetOr([]) ==> d in RetrievalContext(matches)
    ensures forall s :: s in Answered(question, matches, chain).sources ==> s in filePaths
  {
    var metas := SessionQuery(after, sid);
    SessionSeesUpload(before, after, sid, Uploaded(filePaths, split, embed, hash));
    UploadedMetasFrom(filePaths, split, embed, hash);
    RetrievalContextMetas(matches, metas);
    var docs := RetrievalContext(matches);
    if docs != [] {
      var used := chain(docs, question).sourceDocuments.GetOr([]);
      ExtractSourcesSpec(used);
      forall s | s in Answered(question, matches, chain).sources ensures s in filePaths {
        var d :| d in used && !IsHeader(d) && ReportedSource(d) == s;
        assert d.meta in metas;
      }
    }
  }
}
