/** A loop that walks a list and pushes a derived item for only some elements, stated once: the
    pushed items keep the input order and come from the elements the selection accepts. Also
    the few facts about concatenation that the other modules' proofs rely on. */
module Seqs {
  import opened Wrappers

  /** The items `f` yields, in input order; elements for which `f` yields nothing are skipped. */
  function FilterMap<A, B>(f: A -> Option<B>, s: seq<A>): (r: seq<B>)
    ensures |r| <= |s|
    decreases |s|
  {
    if s == [] then []
    else
      var init := FilterMap(f, s[..|s| - 1]);
      match f(s[|s| - 1])
      case Some(b) => init + [b]
      case None => init
  }

  /** The positions of the accepted elements, in increasing order. */
  function Kept<A, B>(f: A -> Option<B>, s: seq<A>): (idx: seq<nat>)
    ensures forall k :: 0 <= k < |idx| ==> idx[k] < |s| && f(s[idx[k]]).Some?
    ensures forall k, l :: 0 <= k < l < |idx| ==> idx[k] < idx[l]
    ensures forall i :: 0 <= i < |s| && f(s[i]).Some? ==> i in idx
    decreases |s|
  {
    if s == [] then []
    else
      var init := Kept(f, s[..|s| - 1]);
      assert forall k :: 0 <= k < |init| ==> s[..|s| - 1][init[k]] == s[init[k]];
      if f(s[|s| - 1]).Some? then init + [|s| - 1] else init
  }

  /** The k-th item is what `f` makes of the k-th accepted element. */
  lemma {:induction false} FilterMapOrigins<A, B>(f: A -> Option<B>, s: seq<A>)
    ensures |Kept(f, s)| == |FilterMap(f, s)|
    ensures forall k :: 0 <= k < |Kept(f, s)| ==> f(s[Kept(f, s)[k]]) == Some(FilterMap(f, s)[k])
    decreases |s|
  {
    if s != [] {
      var s' := s[..|s| - 1];
      FilterMapOrigins(f, s');
      forall k | 0 <= k < |Kept(f, s')| ensures s'[Kept(f, s')[k]] == s[Kept(f, s')[k]] { }
    }
  }

  /** What the loop has pushed after the first `i` elements is a prefix of the final list. */
  lemma {:induction false} FilterMapPrefix<A, B>(f: A -> Option<B>, s: seq<A>, i: nat)
    requires i <= |s|
    ensures FilterMap(f, s[..i]) <= FilterMap(f, s)
    decreases |s| - i
  {
    if i < |s| {
      FilterMapPrefix(f, s, i + 1);
      assert s[..i + 1][..i] == s[..i];
    } else {
      assert s[..i] == s;
    }
  }

  /** One more element: the list grows by that element's item, if any. */
  lemma FilterMapStep<A, B>(f: A -> Option<B>, s: seq<A>, i: nat)
    requires i < |s|
    ensures FilterMap(f, s[..i + 1]) == FilterMap(f, s[..i]) + (match f(s[i]) case Some(b) => [b] case None => [])
  {
    assert s[..i + 1][..i] == s[..i];
  }

  /** Concatenation is associative. */
  lemma AppendAssoc<T>(a: seq<T>, b: seq<T>, c: seq<T>)
    ensures a + b + c == a + (b + c)
  {
  }

  /** The first part of a concatenation is its prefix of that length. */
  lemma PrefixOfAppend<T>(a: seq<T>, b: seq<T>)
    ensures (a + b)[..|a|] == a
  {
  }

  /** Appending to nothing gives the appended sequence. */
  lemma EmptyAppend<T>(s: seq<T>)
    ensures [] + s == s
  {
  }

  /** Moving the first element of `b` across the concatenation. */
  lemma AppendFirst<T>(a: seq<T>, b: seq<T>)
    requires b != []
    ensures a + [b[0]] + b[1..] == a + b
  {
    assert b == [b[0]] + b[1..];
  }
}
