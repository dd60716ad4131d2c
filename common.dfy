/** Small value types and sequence helpers shared by the retrieval and the
    ingestion pipelines. */
module Common {

  /** A Python value that may be absent: a missing dictionary key. */
  datatype Option<+T> = None | Some(value: T) {
    /** `d.get(key, default)` */
    function GetOr(default: T): T {
      match this
      case Some(v) => v
      case None => default
    }
  }

  function Min(a: int, b: int): int { if a <= b then a else b }

  function Max(a: int, b: int): int { if a >= b then a else b }

  /** A non-empty sequence is its prefix followed by its last element. */
  lemma SplitLast<T>(s: seq<T>)
    requires s != []
    ensures s == s[..|s| - 1] + [s[|s| - 1]]
  {
  }

  /** No element occurs twice. */
  ghost predicate NoDups<T>(s: seq<T>) {
    forall i, j :: 0 <= i < j < |s| ==> s[i] != s[j]
  }

  /** Index of the first occurrence of `x` in `s`. */
  function FirstIndex<T(==)>(s: seq<T>, x: T): (k: nat)
    requires x in s
    ensures k < |s| && s[k] == x
    ensures forall j :: 0 <= j < k ==> s[j] != x
  {
    if s[0] == x then 0 else 1 + FirstIndex(s[1..], x)
  }

  /** The distinct elements of `s`, in order of first appearance: what
      building a dictionary key by key (or `list(set(...))` up to order)
      leaves behind. */
  function Dedup<T(==)>(s: seq<T>): (r: seq<T>)
    ensures |r| <= |s|
  {
    if s == [] then []
    else
      var d := Dedup(s[..|s| - 1]);
      if s[|s| - 1] in d then d else d + [s[|s| - 1]]
  }

  /** Dedup keeps exactly the elements of its input, each once. */
  lemma {:induction false} DedupSpec<T>(s: seq<T>)
    ensures NoDups(Dedup(s))
    ensures forall i :: 0 <= i < |Dedup(s)| ==> Dedup(s)[i] in s
    ensures forall x :: x in Dedup(s) <==> x in s
  {
    if s != [] {
      var init := s[..|s| - 1];
      var last := s[|s| - 1];
      DedupSpec(init);
      assert s == init + [last];
      var d := Dedup(init);
      if last !in d {
        forall i, j | 0 <= i < j < |d| + 1 ensures (d + [last])[i] != (d + [last])[j] {
          if j < |d| {
            assert (d + [last])[i] == d[i] && (d + [last])[j] == d[j];
          } else {
            assert d[i] in d;
          }
        }
      }
    }
  }

  /** The first occurrence of `x` in a prefix is its first occurrence in the whole. */
  lemma {:induction false} FirstIndexPrefix<T>(s: seq<T>, n: nat, x: T)
    requires n <= |s| && x in s[..n]
    ensures FirstIndex(s, x) == FirstIndex(s[..n], x)
  {
    if s[0] != x {
      assert s[1..][..n - 1] == s[..n][1..];
      FirstIndexPrefix(s[1..], n - 1, x);
    }
  }

  /** An element that does not occur before the end first occurs at the end. */
  lemma FirstIndexOfNewLast<T>(s: seq<T>)
    requires s != [] && s[|s| - 1] !in s[..|s| - 1]
    ensures FirstIndex(s, s[|s| - 1]) == |s| - 1
  {
  }

  /** Dedup lists the distinct elements in the order in which they first
      appear in the input. */
  lemma {:induction false} DedupFirstAppearance<T>(s: seq<T>, i: nat, j: nat)
    requires i < j < |Dedup(s)|
    ensures Dedup(s)[i] in s && Dedup(s)[j] in s
    ensures FirstIndex(s, Dedup(s)[i]) < FirstIndex(s, Dedup(s)[j])
  {
    DedupSpec(s);
    var init := s[..|s| - 1];
    var last := s[|s| - 1];
    var d := Dedup(init);
    assert Dedup(s) == if last in d then d else d + [last];
    var x, y := Dedup(s)[i], Dedup(s)[j];
    DedupSpec(init);
    assert x == d[i];
    FirstIndexPrefix(s, |s| - 1, x);
    if j < |d| {
      assert y == d[j];
      DedupFirstAppearance(init, i, j);
      FirstIndexPrefix(s, |s| - 1, y);
      assert FirstIndex(s, x) == FirstIndex(init, x) < FirstIndex(init, y) == FirstIndex(s, y);
    } else {
      assert y == last && last !in d;
      FirstIndexOfNewLast(s);
      assert FirstIndex(s, x) == FirstIndex(init, x) < |init| == FirstIndex(s, y);
    }
  }
}
