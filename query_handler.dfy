/** Query-time retrieval (`ask_question`): the ranked matches returned by the
    vector index are filtered, grouped by source document, ranked and capped
    per source, and assembled into a context of header and content documents
    for the answering chain; the sources the chain reports are de-duplicated.

    The index query and the answering chain are inputs: the matches arrive as
    a sequence, and the chain is an arbitrary function of the retrieved
    documents and the question. */
module QueryHandler {
  import opened Common
  import opened Strings

  /** Metadata of a match or of a context document. Every key may be absent,
      as in the Python dictionary. */
  datatype Meta = Meta(source: Option<string>, text: Option<string>, page: Option<int>, kind: Option<string>)

  /** One ranked match of the index query. */
  datatype Match = Match(meta: Meta, score: Option<int>)

  /** A kept match: its stripped text, its metadata and its score. */
  datatype Chunk = Chunk(text: string, meta: Meta, score: int)

  /** A document handed to the answering chain. */
  datatype Document = Document(content: string, meta: Meta)

  /** What the answering chain returns: the answer text and, possibly, the
      documents it used. */
  datatype ChainResult = ChainResult(result: string, sourceDocuments: Option<seq<Document>>)

  datatype Answer = Answer(response: string, sources: seq<string>)

  /** Grouping key of a match without a `source`. */
  const UnknownKey := "unknown"
  /** Reported source of a used document without a `source`. */
  const UnknownSource := "Unknown"
  const HeaderKind := "header"
  const NoInfoResponse := "I couldn't find any relevant information in the uploaded documents."

  // ---------------------------------------------------------------------------
  // Filtering and grouping

  /** The chunk a match contributes: none when its text is blank, otherwise
      the stripped text, with a missing score read as 0. */
  function ChunkOf(m: Match): Option<Chunk> {
    var text := Strip(m.meta.text.GetOr(""));
    if text == "" then None else Some(Chunk(text, m.meta, m.score.GetOr(0)))
  }

  /** The chunks contributed by `ms`, in retrieval order. */
  function Kept(ms: seq<Match>): (r: seq<Chunk>)
    ensures |r| <= |ms|
  {
    if ms == [] then []
    else
      var last := ms[|ms| - 1];
      Kept(ms[..|ms| - 1]) + (match ChunkOf(last) case Some(c) => [c] case None => [])
  }

  /** A match contributes a chunk exactly when its stripped text is not
      blank, and the chunk carries that stripped text. */
  lemma {:induction false} KeptSpec(ms: seq<Match>)
    ensures forall c :: c in Kept(ms) ==> c.text != "" && exists m :: m in ms && ChunkOf(m) == Some(c)
    ensures forall m :: m in ms && ChunkOf(m).Some? ==> ChunkOf(m).value in Kept(ms)
    ensures Kept(ms) == [] <==> forall m :: m in ms ==> ChunkOf(m) == None
  {
    if ms != [] {
      var init := ms[..|ms| - 1];
      var last := ms[|ms| - 1];
      KeptSpec(init);
      assert ms == init + [last];
      assert forall m :: m in ms ==> m in init || m == last;
    }
  }

  /** The key under which a chunk is grouped. */
  function GroupKey(meta: Meta): string {
    meta.source.GetOr(UnknownKey)
  }

  function KeyList(cs: seq<Chunk>): (r: seq<string>)
    ensures |r| == |cs|
  {
    seq(|cs|, i requires 0 <= i < |cs| => GroupKey(cs[i].meta))
  }

  /** The sources in order of first appearance: the key order of the
      grouping dictionary. */
  function SourceOrder(cs: seq<Chunk>): seq<string> {
    Dedup(KeyList(cs))
  }

  /** The chunks of source `k`, in retrieval order. */
  function Group(cs: seq<Chunk>, k: string): (r: seq<Chunk>)
    ensures |r| <= |cs|
  {
    if cs == [] then []
    else
      var last := cs[|cs| - 1];
      Group(cs[..|cs| - 1], k) + (if GroupKey(last.meta) == k then [last] else [])
  }

  /** A group holds exactly the chunks of its source. */
  lemma {:induction false} GroupMembers(cs: seq<Chunk>, k: string)
    ensures forall c :: c in Group(cs, k) <==> c in cs && GroupKey(c.meta) == k
  {
    if cs != [] {
      var init := cs[..|cs| - 1];
      GroupMembers(init, k);
      assert cs == init + [cs[|cs| - 1]];
    }
  }

  /** The grouping dictionary as a map from source to its chunks. */
  function Groups(cs: seq<Chunk>): map<string, seq<Chunk>> {
    map k | k in SourceOrder(cs) :: Group(cs, k)
  }

  /** Lines 49-60: walk the matches once, appending every kept chunk to the
      list of its source and recording each source when first seen. */
  method GroupBySource(matches: seq<Match>) returns (order: seq<string>, groups: map<string, seq<Chunk>>)
    ensures order == SourceOrder(Kept(matches)) && NoDups(order)
    ensures forall k :: k in groups <==> k in order
    ensures forall k :: k in groups ==> groups[k] == Group(Kept(matches), k)
  {
    order, groups := [], map[];
    ghost var kept: seq<Chunk> := [];
    for i := 0 to |matches|
      invariant kept == Kept(matches[..i])
      invariant order == SourceOrder(kept)
      invariant forall k :: k in groups <==> k in order
      invariant forall k :: k in groups ==> groups[k] == Group(kept, k)
    {
      KeptAppend(matches, i);
      var text := Strip(matches[i].meta.text.GetOr(""));
      if text != "" {
        var chunk := Chunk(text, matches[i].meta, matches[i].score.GetOr(0));
        order, groups := AddChunk(kept, chunk, order, groups);
        kept := kept + [chunk];
      }
    }
    assert matches[..|matches|] == matches;
    DedupSpec(KeyList(kept));
  }

  /** Lines 53-60, one kept chunk: its source is appended to the order when
      it is new, with a list of its own, and the chunk is appended to its
      source's list. The grouping of the chunks so far becomes the grouping
      of those chunks and this one. */
  method AddChunk(ghost kept: seq<Chunk>, chunk: Chunk, order: seq<string>, groups: map<string, seq<Chunk>>)
    returns (order': seq<string>, groups': map<string, seq<Chunk>>)
    requires order == SourceOrder(kept)
    requires forall k :: k in groups <==> k in order
    requires forall k :: k in groups ==> groups[k] == Group(kept, k)
    ensures order' == SourceOrder(kept + [chunk])
    ensures forall k :: k in groups' <==> k in order'
    ensures forall k :: k in groups' ==> groups'[k] == Group(kept + [chunk], k)
  {
    var source := GroupKey(chunk.meta);
    SourceOrderAppend(kept, chunk);
    GroupAppend(kept, chunk);
    order', groups' := order, groups;
    if source !in groups' {
      GroupEmpty(kept, source);
      order' := order' + [source];
      groups' := groups'[source := []];
    }
    groups' := groups'[source := groups'[source] + [chunk]];
  }

  /** Extending the matches by one extends the kept chunks by its chunk, if any. */
  lemma KeptAppend(ms: seq<Match>, i: nat)
    requires i < |ms|
    ensures Kept(ms[..i + 1]) == Kept(ms[..i]) + (match ChunkOf(ms[i]) case Some(c) => [c] case None => [])
  {
    assert ms[..i + 1][..i] == ms[..i];
  }

  /** Appending a chunk appends its source to the order when it is new. */
  lemma SourceOrderAppend(cs: seq<Chunk>, c: Chunk)
    ensures var k := GroupKey(c.meta);
      SourceOrder(cs + [c]) == if k in SourceOrder(cs) then SourceOrder(cs) else SourceOrder(cs) + [k]
  {
    assert KeyList(cs + [c]) == KeyList(cs) + [GroupKey(c.meta)];
    assert (KeyList(cs) + [GroupKey(c.meta)])[..|cs|] == KeyList(cs);
  }

  /** Appending a chunk appends it to its own group and to no other. */
  lemma GroupAppend(cs: seq<Chunk>, c: Chunk)
    ensures forall k :: Group(cs + [c], k) == Group(cs, k) + (if GroupKey(c.meta) == k then [c] else [])
  {
    assert (cs + [c])[..|cs|] == cs;
  }

  /** A source that no chunk carries has an empty group. */
  lemma {:induction false} GroupEmpty(cs: seq<Chunk>, k: string)
    requires k !in SourceOrder(cs)
    ensures Group(cs, k) == []
  {
    if cs != [] {
      var init := cs[..|cs| - 1];
      DedupSpec(KeyList(cs));
      DedupSpec(KeyList(init));
      assert KeyList(cs)[..|cs| - 1] == KeyList(init);
      assert KeyList(cs)[|cs| - 1] == GroupKey(cs[|cs| - 1].meta);
      assert forall j :: 0 <= j < |init| ==> KeyList(init)[j] in KeyList(cs);
      GroupEmpty(init, k);
    }
  }

  /** Every source that some chunk carries has a non-empty group. */
  lemma {:induction false} GroupNonEmpty(cs: seq<Chunk>, k: string)
    requires k in SourceOrder(cs)
    ensures Group(cs, k) != []
  {
    var init := cs[..|cs| - 1];
    var last := cs[|cs| - 1];
    DedupSpec(KeyList(cs));
    DedupSpec(KeyList(init));
    assert KeyList(cs) == KeyList(init) + [GroupKey(last.meta)];
    if GroupKey(last.meta) != k {
      assert k in KeyList(init);
      GroupNonEmpty(init, k);
    }
  }

  /** Sum of the group sizes of the sources in `keys`. */
  function GroupSizes(cs: seq<Chunk>, keys: seq<string>): nat {
    if keys == [] then 0 else GroupSizes(cs, keys[..|keys| - 1]) + |Group(cs, keys[|keys| - 1])|
  }

  lemma {:induction false} GroupSizesAppend(cs: seq<Chunk>, c: Chunk, keys: seq<string>)
    requires NoDups(keys)
    ensures GroupSizes(cs + [c], keys) == GroupSizes(cs, keys) + (if GroupKey(c.meta) in keys then 1 else 0)
  {
    if keys != [] {
      var init := keys[..|keys| - 1];
      assert (cs + [c])[..|cs|] == cs;
      assert forall i, j :: 0 <= i < j < |init| ==> init[i] == keys[i] && init[j] == keys[j];
      GroupSizesAppend(cs, c, init);
      assert GroupKey(c.meta) in keys <==> GroupKey(c.meta) in init || GroupKey(c.meta) == keys[|keys| - 1];
      assert keys[|keys| - 1] in init ==> false;
    }
  }

  /** Every kept chunk lands in exactly one group: the one of its own
      source, which is listed. */
  lemma GroupsCover(cs: seq<Chunk>)
    ensures forall c :: c in cs ==> GroupKey(c.meta) in SourceOrder(cs) && c in Group(cs, GroupKey(c.meta))
    ensures forall c, k :: c in Group(cs, k) ==> k == GroupKey(c.meta)
  {
    DedupSpec(KeyList(cs));
    forall c | c in cs ensures GroupKey(c.meta) in SourceOrder(cs) && c in Group(cs, GroupKey(c.meta)) {
      var j :| 0 <= j < |cs| && cs[j] == c;
      assert KeyList(cs)[j] == GroupKey(c.meta);
      GroupMembers(cs, GroupKey(c.meta));
    }
    forall c, k | c in Group(cs, k) ensures k == GroupKey(c.meta) {
      GroupMembers(cs, k);
    }
  }

  /** The groups together hold all kept chunks. */
  lemma {:induction false} GroupsCount(cs: seq<Chunk>)
    ensures GroupSizes(cs, SourceOrder(cs)) == |cs|
  {
    if cs != [] {
      var init := cs[..|cs| - 1];
      var c := cs[|cs| - 1];
      var k := GroupKey(c.meta);
      assert cs == init + [c];
      GroupsCount(init);
      assert KeyList(cs) == KeyList(init) + [k];
      assert KeyList(cs)[..|cs| - 1] == KeyList(init);
      DedupSpec(KeyList(init));
      GroupSizesAppend(init, c, SourceOrder(init));
      if k !in SourceOrder(init) {
        GroupEmpty(init, k);
        assert SourceOrder(cs) == SourceOrder(init) + [k];
        assert SourceOrder(cs)[..|SourceOrder(cs)| - 1] == SourceOrder(init);
      } else {
        assert SourceOrder(cs) == SourceOrder(init);
      }
    }
  }

  // ---------------------------------------------------------------------------
  // Quota and ranking

  /** Line 66: the number of chunks each source may contribute, given the
      number of sources: `max(3, 10 // n)`, or 10 when there is none. */
  function Quota(n: nat): (q: nat)
    ensures q >= 3
    ensures n <= 1 ==> q == 10
    ensures n == 2 ==> q == 5
    ensures n >= 3 ==> q == 3
  {
    if n == 0 then 10 else Max(3, 10 / n)
  }

  /** The quota shares a budget of ten content chunks among the sources,
      except that each source may always contribute three: `n` sources never
      contribute more than `max(10, 3 n)` chunks. */
  lemma QuotaBudget(n: nat)
    ensures n * Quota(n) <= Max(10, 3 * n)
  {
    if n >= 3 {
      assert Quota(n) == 3;
    }
  }

  /** Ordered by score, highest first. */
  ghost predicate SortedByScore(s: seq<Chunk>) {
    forall i, j :: 0 <= i < j < |s| ==> s[i].score >= s[j].score
  }

  /** Inserts `c` before the first element whose score is not higher. */
  function Insert(c: Chunk, s: seq<Chunk>): (r: seq<Chunk>)
    ensures |r| == |s| + 1
  {
    if s == [] || c.score >= s[0].score then [c] + s else [s[0]] + Insert(c, s[1..])
  }

  /** Insert adds `c` and nothing else. */
  lemma {:induction false} InsertPerm(c: Chunk, s: seq<Chunk>)
    ensures multiset(Insert(c, s)) == multiset(s) + multiset{c}
  {
    if !(s == [] || c.score >= s[0].score) {
      InsertPerm(c, s[1..]);
      assert s == [s[0]] + s[1..];
      assert Insert(c, s) == [s[0]] + Insert(c, s[1..]);
    }
  }

  /** Insert adds nothing scored above a bound that `c` and `s` respect. */
  lemma {:induction false} InsertBounded(c: Chunk, s: seq<Chunk>, b: int)
    requires c.score <= b
    requires forall i :: 0 <= i < |s| ==> s[i].score <= b
    ensures forall i :: 0 <= i < |Insert(c, s)| ==> Insert(c, s)[i].score <= b
  {
    if !(s == [] || c.score >= s[0].score) {
      InsertBounded(c, s[1..], b);
      assert Insert(c, s) == [s[0]] + Insert(c, s[1..]);
    }
  }

  /** Insert keeps a sorted sequence sorted. */
  lemma {:induction false} InsertSorted(c: Chunk, s: seq<Chunk>)
    requires SortedByScore(s)
    ensures SortedByScore(Insert(c, s))
    ensures Insert(c, s)[0] == c || Insert(c, s)[0] == s[0]
  {
    if !(s == [] || c.score >= s[0].score) {
      var t := s[1..];
      var r := Insert(c, s);
      var rt := Insert(c, t);
      assert SortedByScore(t);
      InsertSorted(c, t);
      InsertBounded(c, t, s[0].score);
      assert r == [s[0]] + rt;
      forall i, j | 0 <= i < j < |r| ensures r[i].score >= r[j].score {
        assert r[j] == rt[j - 1];
        if i > 0 {
          assert r[i] == rt[i - 1];
        }
      }
    }
  }

  /** Line 70: `chunks.sort(key=score, reverse=True)`, a stable sort by
      descending score. */
  function SortByScore(s: seq<Chunk>): (r: seq<Chunk>)
    ensures |r| == |s|
  {
    if s == [] then [] else Insert(s[0], SortByScore(s[1..]))
  }

  /** The sort returns a permutation of its input ordered by descending score. */
  lemma {:induction false} SortSpec(s: seq<Chunk>)
    ensures multiset(SortByScore(s)) == multiset(s)
    ensures SortedByScore(SortByScore(s))
  {
    if s != [] {
      SortSpec(s[1..]);
      InsertPerm(s[0], SortByScore(s[1..]));
      InsertSorted(s[0], SortByScore(s[1..]));
      assert s == [s[0]] + s[1..];
    }
  }

  /** The chunks of `s` whose score is `v`, in order. */
  function WithScore(s: seq<Chunk>, v: int): seq<Chunk> {
    if s == [] then [] else (if s[0].score == v then [s[0]] else []) + WithScore(s[1..], v)
  }

  lemma {:induction false} InsertWithScore(c: Chunk, s: seq<Chunk>, v: int)
    ensures WithScore(Insert(c, s), v) == (if c.score == v then [c] else []) + WithScore(s, v)
  {
    if s == [] || c.score >= s[0].score {
      var r := [c] + s;
      assert r[0] == c && r[1..] == s;
    } else {
      var t := Insert(c, s[1..]);
      var r := [s[0]] + t;
      assert Insert(c, s) == r;
      assert r[0] == s[0] && r[1..] == t;
      InsertWithScore(c, s[1..], v);
      assert WithScore(r, v) == (if s[0].score == v then [s[0]] else []) + WithScore(t, v);
      assert WithScore(s, v) == (if s[0].score == v then [s[0]] else []) + WithScore(s[1..], v);
    }
  }

  /** The sort is stable: chunks with equal scores keep their retrieval order. */
  lemma {:induction false} SortStable(s: seq<Chunk>, v: int)
    ensures WithScore(SortByScore(s), v) == WithScore(s, v)
  {
    if s != [] {
      SortStable(s[1..], v);
      InsertWithScore(s[0], SortByScore(s[1..]), v);
    }
  }

  /** Line 81: the first `quota` chunks of a group once it is sorted. */
  function Top(g: seq<Chunk>, quota: nat): seq<Chunk> {
    SortByScore(g)[..Min(quota, |g|)]
  }

  /** What Top keeps: `min(count, quota)` chunks of the group, the highest
      scored ones, none of them ranked below a dropped one. */
  lemma TopSpec(g: seq<Chunk>, quota: nat)
    ensures |Top(g, quota)| == Min(quota, |g|) <= quota
    ensures g != [] && quota > 0 ==> |Top(g, quota)| >= 1
    ensures SortedByScore(Top(g, quota))
    ensures forall i, j :: 0 <= i < |Top(g, quota)| <= j < |g| ==> Top(g, quota)[i].score >= SortByScore(g)[j].score
  {
    SortSpec(g);
  }

  /** Top keeps only chunks of the group. */
  lemma TopMembers(g: seq<Chunk>, quota: nat)
    ensures forall c :: c in Top(g, quota) ==> c in g
  {
    var r := SortByScore(g);
    SortSpec(g);
    forall c | c in Top(g, quota) ensures c in g {
      assert c in multiset(r);
    }
  }

  // ---------------------------------------------------------------------------
  // Context assembly

  /** Line 73: the file name shown for a source, the text after its last `/`. */
  function Label(source: string): string {
    if '/' in source then AfterLastSlash(source) else source
  }

  /** The label is the longest suffix of the source without a `/`. */
  lemma LabelSpec(source: string)
    ensures '/' !in Label(source) && |Label(source)| <= |source|
    ensures Label(source) == source[|source| - |Label(source)|..]
    ensures |Label(source)| < |source| ==> source[|source| - |Label(source)| - 1] == '/'
  {
    if '/' in source {
      assert Label(source) == AfterLastSlash(source);
    } else {
      assert source[|source|..] == [];
    }
  }

  const Rule := "============================================================"

  function HeaderText(fileName: string): string {
    "\n" + Rule + "\n\U{1F4C4} RESUME SOURCE: " + fileName + "\n" + Rule + "\n"
  }

  predicate IsHeader(d: Document) {
    d.meta.kind == Some(HeaderKind)
  }

  /** Lines 73-78: the document announcing a source. */
  function HeaderDoc(source: string): (d: Document)
    ensures IsHeader(d) && d.meta.source == Some(source)
  {
    Document(HeaderText(Label(source)), Meta(Some(source), None, None, Some(HeaderKind)))
  }

  /** Lines 82-85: a chunk as a content document, keeping the match's metadata. */
  function ContentDoc(c: Chunk): Document {
    Document(c.text, c.meta)
  }

  function ContentDocs(cs: seq<Chunk>): (r: seq<Document>)
    ensures |r| == |cs|
  {
    seq(|cs|, i requires 0 <= i < |cs| => ContentDoc(cs[i]))
  }

  /** The documents of one source: its header, then its top chunks. */
  function Block(source: string, g: seq<Chunk>, quota: nat): seq<Document> {
    [HeaderDoc(source)] + ContentDocs(Top(g, quota))
  }

  /** The assembled context: the blocks of the sources, in source order. */
  function Context(order: seq<string>, groups: map<string, seq<Chunk>>, quota: nat): seq<Document>
    requires forall k :: k in order ==> k in groups
  {
    if order == [] then []
    else
      var k := order[|order| - 1];
      Context(order[..|order| - 1], groups, quota) + Block(k, groups[k], quota)
  }

  /** Lines 66-85, one source: append its header document, then its chunks
      in descending score order, at most `quota` of them. */
  method AppendBlock(docs: seq<Document>, source: string, group: seq<Chunk>, quota: nat) returns (r: seq<Document>)
    ensures r == docs + Block(source, group, quota)
  {
    r := docs + [HeaderDoc(source)];
    var sorted := SortByScore(group);
    var top := sorted[..Min(quota, |sorted|)];
    ghost var pre := r;
    for j := 0 to |top|
      invariant r == pre + ContentDocs(top[..j])
    {
      ContentDocsAppend(top, j);
      r := r + [ContentDoc(top[j])];
    }
    assert top[..|top|] == top;
  }

  /** Lines 64-85: emit a header per source followed by its top chunks. */
  method AssembleContext(order: seq<string>, groups: map<string, seq<Chunk>>) returns (docs: seq<Document>)
    requires forall k :: k in order ==> k in groups
    ensures docs == Context(order, groups, Quota(|order|))
  {
    var quota := Quota(|order|);
    docs := [];
    for i := 0 to |order|
      invariant docs == Context(order[..i], groups, quota)
    {
      var source := order[i];
      docs := AppendBlock(docs, source, groups[source], quota);
      ContextAppend(order, groups, quota, i);
    }
    assert order[..|order|] == order;
  }

  lemma ContentDocsAppend(cs: seq<Chunk>, j: nat)
    requires j < |cs|
    ensures ContentDocs(cs[..j + 1]) == ContentDocs(cs[..j]) + [ContentDoc(cs[j])]
  {
  }

  /** One more source adds its block to the context. */
  lemma ContextAppend(order: seq<string>, groups: map<string, seq<Chunk>>, quota: nat, i: nat)
    requires forall k :: k in order ==> k in groups
    requires i < |order|
    ensures Context(order[..i + 1], groups, quota) == Context(order[..i], groups, quota) + Block(order[i], groups[order[i]], quota)
  {
    assert order[..i + 1][..i] == order[..i];
  }

  /** The sum over the sources of the number of chunks each contributes. */
  function Contributed(order: seq<string>, groups: map<string, seq<Chunk>>, quota: nat): nat
    requires forall k :: k in order ==> k in groups
  {
    if order == [] then 0
    else
      var k := order[|order| - 1];
      Contributed(order[..|order| - 1], groups, quota) + Min(quota, |groups[k]|)
  }

  /** The context holds one header per source plus `min(count, quota)` content
      documents per source. */
  lemma {:induction false} ContextLength(order: seq<string>, groups: map<string, seq<Chunk>>, quota: nat)
    requires forall k :: k in order ==> k in groups
    ensures |Context(order, groups, quota)| == |order| + Contributed(order, groups, quota)
  {
    if order != [] {
      var init := order[..|order| - 1];
      var k := order[|order| - 1];
      assert forall x :: x in init ==> x in order;
      ContextLength(init, groups, quota);
      assert |Block(k, groups[k], quota)| == 1 + Min(quota, |groups[k]|);
    }
  }

  lemma MulSucc(a: nat, q: nat)
    ensures (a + 1) * q == a * q + q
  {
  }

  /** Together the sources contribute at most `quota` content documents
      each on average: `|order| * quota` in all. */
  lemma {:induction false} ContributedAtMost(order: seq<string>, groups: map<string, seq<Chunk>>, quota: nat)
    requires forall k :: k in order ==> k in groups
    ensures Contributed(order, groups, quota) <= |order| * quota
  {
    if order != [] {
      var init := order[..|order| - 1];
      assert forall x :: x in init ==> x in order;
      ContributedAtMost(init, groups, quota);
      MulSucc(|init|, quota);
    }
  }

  /** With a positive quota and every group non-empty, the sources together
      contribute at least as many content documents as there are sources. */
  lemma {:induction false} ContributedAtLeast(order: seq<string>, groups: map<string, seq<Chunk>>, quota: nat)
    requires forall k :: k in order ==> k in groups && groups[k] != []
    requires quota > 0
    ensures Contributed(order, groups, quota) >= |order|
  {
    if order != [] {
      var init := order[..|order| - 1];
      assert forall x :: x in init ==> x in order;
      ContributedAtLeast(init, groups, quota);
    }
  }

  /** The sources named by the header documents of `docs`, in order. */
  function HeaderSources(docs: seq<Document>): seq<string> {
    if docs == [] then []
    else
      var d := docs[|docs| - 1];
      HeaderSources(docs[..|docs| - 1]) + (if IsHeader(d) then [d.meta.source.GetOr("")] else [])
  }

  lemma {:induction false} HeaderSourcesConcat(a: seq<Document>, b: seq<Document>)
    ensures HeaderSources(a + b) == HeaderSources(a) + HeaderSources(b)
  {
    if b != [] {
      assert (a + b)[..|a + b| - 1] == a + b[..|b| - 1];
      HeaderSourcesConcat(a, b[..|b| - 1]);
    } else {
      assert a + b == a;
    }
  }

  /** No chunk's own metadata claims to be a header. */
  ghost predicate NoHeaderKinds(cs: seq<Chunk>) {
    forall c :: c in cs ==> c.meta.kind != Some(HeaderKind)
  }

  lemma {:induction false} NoHeaderAmongContent(cs: seq<Chunk>)
    requires NoHeaderKinds(cs)
    ensures HeaderSources(ContentDocs(cs)) == []
  {
    if cs != [] {
      assert ContentDocs(cs)[..|cs| - 1] == ContentDocs(cs[..|cs| - 1]);
      NoHeaderAmongContent(cs[..|cs| - 1]);
    }
  }

  /** When no chunk's own metadata claims to be a header, the headers of the
      context are exactly one per source, in source order. */
  lemma {:induction false} ContextHeaders(order: seq<string>, groups: map<string, seq<Chunk>>, quota: nat)
    requires forall k :: k in order ==> k in groups && NoHeaderKinds(groups[k])
    ensures HeaderSources(Context(order, groups, quota)) == order
  {
    if order != [] {
      var init := order[..|order| - 1];
      var k := order[|order| - 1];
      assert forall x :: x in init ==> x in order;
      ContextHeaders(init, groups, quota);
      BlockHeaders(k, groups[k], quota);
      var prev, block := Context(init, groups, quota), Block(k, groups[k], quota);
      assert Context(order, groups, quota) == prev + block;
      HeaderSourcesConcat(prev, block);
      SplitLast(order);
    }
  }

  /** A block names its own source in its one header. */
  lemma BlockHeaders(k: string, g: seq<Chunk>, quota: nat)
    requires NoHeaderKinds(g)
    ensures HeaderSources(Block(k, g, quota)) == [k]
  {
    TopMembers(g, quota);
    NoHeaderAmongContent(Top(g, quota));
    HeaderSourcesConcat([HeaderDoc(k)], ContentDocs(Top(g, quota)));
    assert HeaderSources([HeaderDoc(k)]) == [k] by {
      assert [HeaderDoc(k)][..0] == [];
    }
  }

  /** Every document of the context is a header or belongs to a listed source. */
  lemma {:induction false} ContextDocSources(order: seq<string>, groups: map<string, seq<Chunk>>, quota: nat)
    requires forall k :: k in order ==> k in groups
    requires forall k, c :: k in order && c in groups[k] ==> GroupKey(c.meta) == k
    ensures forall d :: d in Context(order, groups, quota) ==> IsHeader(d) || GroupKey(d.meta) in order
  {
    if order != [] {
      var init := order[..|order| - 1];
      var k := order[|order| - 1];
      assert forall x :: x in init ==> x in order;
      ContextDocSources(init, groups, quota);
      TopMembers(groups[k], quota);
      forall d | d in ContentDocs(Top(groups[k], quota)) ensures GroupKey(d.meta) == k {
        var i :| 0 <= i < |Top(groups[k], quota)| && d == ContentDoc(Top(groups[k], quota)[i]);
        assert Top(groups[k], quota)[i] in Top(groups[k], quota);
      }
    }
  }

  /** Every content document of the context carries the metadata of one of
      the grouped chunks: headers are the only documents the context adds. */
  lemma {:induction false} ContextMetas(order: seq<string>, groups: map<string, seq<Chunk>>, quota: nat, metas: set<Meta>)
    requires forall k :: k in order ==> k in groups
    requires forall k, c :: k in order && c in groups[k] ==> c.meta in metas
    ensures forall d :: d in Context(order, groups, quota) ==> IsHeader(d) || d.meta in metas
  {
    if order != [] {
      var init := order[..|order| - 1];
      var k := order[|order| - 1];
      assert forall x :: x in init ==> x in order;
      ContextMetas(init, groups, quota, metas);
      TopMembers(groups[k], quota);
      forall d | d in ContentDocs(Top(groups[k], quota)) ensures d.meta in metas {
        var i :| 0 <= i < |Top(groups[k], quota)| && d == ContentDoc(Top(groups[k], quota)[i]);
        assert Top(groups[k], quota)[i] in Top(groups[k], quota);
      }
    }
  }

  /** The context assembled from a list of matches. */
  function RetrievalContext(matches: seq<Match>): seq<Document> {
    var kept := Kept(matches);
    var order := SourceOrder(kept);
    Context(order, Groups(kept), Quota(|order|))
  }

  /** Every content document of the retrieval context carries the metadata
      of one of the matches. */
  lemma RetrievalContextMetas(matches: seq<Match>, metas: set<Meta>)
    requires forall m :: m in matches ==> m.meta in metas
    ensures forall d :: d in RetrievalContext(matches) ==> IsHeader(d) || d.meta in metas
  {
    var kept := Kept(matches);
    var order := SourceOrder(kept);
    var groups := Groups(kept);
    KeptSpec(matches);
    forall k: string, c: Chunk | k in order && c in groups[k] ensures c.meta in metas {
      GroupMembers(kept, k);
      var m :| m in matches && ChunkOf(m) == Some(c);
    }
    ContextMetas(order, groups, Quota(|order|), metas);
  }

  /** The context is empty exactly when no match has non-blank text. */
  lemma RetrievalContextEmpty(matches: seq<Match>)
    ensures RetrievalContext(matches) == [] <==> forall m :: m in matches ==> ChunkOf(m) == None
  {
    var kept := Kept(matches);
    var order := SourceOrder(kept);
    KeptSpec(matches);
    DedupSpec(KeyList(kept));
    if kept != [] {
      assert KeyList(kept)[0] in order;
      assert order != [];
      ContextLength(order, Groups(kept), Quota(|order|));
    }
  }

  // ---------------------------------------------------------------------------
  // Sources and the answer

  /** Lines 105-107: the source a used document reports. */
  function ReportedSource(d: Document): string {
    d.meta.source.GetOr(UnknownSource)
  }

  /** The reported sources of the non-header documents, in order. */
  function SourceList(docs: seq<Document>): (r: seq<string>)
    ensures |r| <= |docs|
  {
    if docs == [] then []
    else
      var d := docs[|docs| - 1];
      var init := docs[..|docs| - 1];
      SourceList(init) + (if IsHeader(d) then [] else [ReportedSource(d)])
  }

  /** A source is listed exactly when some non-header document reports it. */
  lemma {:induction false} SourceListMembers(docs: seq<Document>)
    ensures forall x :: x in SourceList(docs) <==> exists d :: d in docs && !IsHeader(d) && ReportedSource(d) == x
  {
    if docs != [] {
      var init := docs[..|docs| - 1];
      SourceListMembers(init);
      assert docs == init + [docs[|docs| - 1]];
    }
  }

  /** Lines 103-108: the distinct sources of the used documents, skipping
      headers. */
  function ExtractSources(docs: seq<Document>): seq<string> {
    Dedup(SourceList(docs))
  }

  /** Each source of a used non-header document is reported, once, and
      nothing else is. */
  lemma ExtractSourcesSpec(docs: seq<Document>)
    ensures NoDups(ExtractSources(docs))
    ensures forall x :: x in ExtractSources(docs) <==> exists d :: d in docs && !IsHeader(d) && ReportedSource(d) == x
  {
    DedupSpec(SourceList(docs));
    SourceListMembers(docs);
  }

  /** Lines 13-22: a retriever that returns its fixed documents whatever the query. */
  class SimpleRetriever {
    const docs: seq<Document>

    constructor (documents: seq<Document>)
      ensures docs == documents
    {
      docs := documents;
    }

    method GetRelevantDocuments(query: string) returns (r: seq<Document>)
      ensures r == docs
    {
      r := docs;
    }
  }

  /** The answer to `question` for the given matches and chain. */
  function Answered(question: string, matches: seq<Match>, chain: (seq<Document>, string) -> ChainResult): Answer {
    var docs := RetrievalContext(matches);
    if docs == [] then Answer(NoInfoResponse, [])
    else
      var result := chain(docs, question);
      Answer(result.result, ExtractSources(result.sourceDocuments.GetOr([])))
  }

  /** Lines 24-113: `ask_question`. */
  method AskQuestion(question: string, matches: seq<Match>, chain: (seq<Document>, string) -> ChainResult)
    returns (answer: Answer)
    ensures answer == Answered(question, matches, chain)
    ensures NoDups(answer.sources)
  {
    var order, groups := GroupBySource(matches);
    assert groups == Groups(Kept(matches));
    var docs := AssembleContext(order, groups);
    if docs == [] {
      return Answer(NoInfoResponse, []);
    }
    var retriever := new SimpleRetriever(docs);
    var retrieved := retriever.GetRelevantDocuments(question);
    var result := chain(retrieved, question);
    answer := Answer(result.result, ExtractSources(result.sourceDocuments.GetOr([])));
    ExtractSourcesSpec(result.sourceDocuments.GetOr([]));
  }

  /** When no match has non-blank text the fixed answer comes back with no
      sources, whatever the chain would have said: it is not consulted. */
  lemma ShortCircuit(question: string, matches: seq<Match>, chain: (seq<Document>, string) -> ChainResult)
    requires forall m :: m in matches ==> ChunkOf(m) == None
    ensures Answered(question, matches, chain) == Answer(NoInfoResponse, [])
  {
    RetrievalContextEmpty(matches);
  }

  /** When the chain reports only documents of the context it was given,
      every reported source is a grouped source or the capitalised
      "Unknown" of a document without one. */
  lemma AnswerSources(question: string, matches: seq<Match>, chain: (seq<Document>, string) -> ChainResult)
    requires forall d :: d in chain(RetrievalContext(matches), question).sourceDocuments.GetOr([]) ==> d in RetrievalContext(matches)
    ensures NoDups(Answered(question, matches, chain).sources)
    ensures forall s :: s in Answered(question, matches, chain).sources ==> s in SourceOrder(Kept(matches)) || s == UnknownSource
  {
    var kept := Kept(matches);
    var order := SourceOrder(kept);
    var groups := Groups(kept);
    forall k: string, c: Chunk | k in order && c in groups[k] ensures GroupKey(c.meta) == k {
      GroupMembers(kept, k);
    }
    ContextDocSources(order, groups, Quota(|order|));
    var docs := RetrievalContext(matches);
    if docs != [] {
      ExtractSourcesSpec(chain(docs, question).sourceDocuments.GetOr([]));
    }
  }

  /** When the matches come from ingested records (no metadata claims to be a
      header), the context has exactly one header per source, in order of
      first appearance, and `n` sources give between `2n` and
      `n + max(10, 3n)` documents in all. */
  lemma RetrievalContextShape(matches: seq<Match>)
    requires forall m :: m in matches ==> m.meta.kind != Some(HeaderKind)
    ensures HeaderSources(RetrievalContext(matches)) == SourceOrder(Kept(matches))
    ensures var n := |SourceOrder(Kept(matches))|;
      n + n <= |RetrievalContext(matches)| <= n + Max(10, 3 * n)
  {
    var kept := Kept(matches);
    var order := SourceOrder(kept);
    var groups := Groups(kept);
    var n := |order|;
    var q := Quota(n);
    KeptSpec(matches);
    GroupsCover(kept);
    forall k | k in order ensures NoHeaderKinds(groups[k]) {
      GroupMembers(kept, k);
    }
    forall k | k in order ensures groups[k] != [] {
      GroupNonEmpty(kept, k);
    }
    ContextHeaders(order, groups, q);
    ContextLength(order, groups, q);
    ContributedAtMost(order, groups, q);
    ContributedAtLeast(order, groups, q);
    QuotaBudget(n);
    var total := Contributed(order, groups, q);
    assert n <= total <= n * q <= Max(10, 3 * n);
  }

}
