/**
 * Sequence helpers. `FilterMap(s, f)` is the Python comprehension
 * `[g(x) for x in s if cond(x)]` with `f(x) == Some(g(x))` exactly when `cond(x)`:
 * every loop of the model that appends to a list only under a condition
 * computes one of these.
 */
module Seqs {
  import opened Wrappers

  /** The value of `o` as a sequence of length zero or one. */
  function Present<B>(o: Option<B>): (r: seq<B>)
    ensures |r| <= 1
    ensures o.None? <==> r == []
    ensures o.Some? ==> r == [o.value]
  {
    if o.Some? then [o.value] else []
  }

  /** The defined images under `f` of the elements of `s`, in the order of `s`. */
  function FilterMap<A, B>(s: seq<A>, f: A -> Option<B>): seq<B>
  {
    if s == [] then [] else FilterMap(s[..|s| - 1], f) + Present(f(s[|s| - 1]))
  }

  /** The positions of `s` at which `f` is defined, in ascending order. */
  function KeptIndices<A, B>(s: seq<A>, f: A -> Option<B>): seq<nat>
  {
    if s == [] then [] else KeptIndices(s[..|s| - 1], f) + (if f(s[|s| - 1]).Some? then [|s| - 1] else [])
  }

  predicate StrictlyIncreasing(idx: seq<nat>) {
    forall k, m :: 0 <= k < m < |idx| ==> idx[k] < idx[m]
  }

  /** One loop step: the comprehension over a prefix one longer. */
  lemma FilterMapStep<A, B>(s: seq<A>, i: nat, f: A -> Option<B>)
    requires i < |s|
    ensures FilterMap(s[..i + 1], f) == FilterMap(s[..i], f) + Present(f(s[i]))
  {
    assert s[..i + 1][..i] == s[..i];
  }

  lemma FilterMapWhole<A, B>(s: seq<A>, f: A -> Option<B>)
    ensures FilterMap(s[..|s|], f) == FilterMap(s, f)
  {
    assert s[..|s|] == s;
  }

  /**
   * `FilterMap(s, f)` is exactly the defined images of `s`, in order:
   * its k-th element is `f` at the k-th kept position, the kept positions
   * ascend, and no position where `f` is defined is missed.
   */
  lemma {:induction false} FilterMapIndices<A, B>(s: seq<A>, f: A -> Option<B>)
    ensures |KeptIndices(s, f)| == |FilterMap(s, f)|
    ensures forall k :: 0 <= k < |KeptIndices(s, f)| ==>
      KeptIndices(s, f)[k] < |s| && f(s[KeptIndices(s, f)[k]]) == Some(FilterMap(s, f)[k])
    ensures StrictlyIncreasing(KeptIndices(s, f))
    ensures forall i :: 0 <= i < |s| && f(s[i]).Some? ==> i in KeptIndices(s, f)
  {
    if s != [] {
      var n := |s| - 1;
      var init := s[..n];
      FilterMapIndices(init, f);
      var idx, r := KeptIndices(init, f), FilterMap(init, f);
      assert forall k :: 0 <= k < |idx| ==> idx[k] < n && s[idx[k]] == init[idx[k]];
      forall i | 0 <= i < |s| && f(s[i]).Some?
        ensures i in KeptIndices(s, f)
      {
        if i < n {
          assert init[i] == s[i];
        }
      }
    }
  }

  /** The comprehension distributes over concatenation. */
  lemma {:induction false} FilterMapAppend<A, B>(a: seq<A>, b: seq<A>, f: A -> Option<B>)
    ensures FilterMap(a + b, f) == FilterMap(a, f) + FilterMap(b, f)
  {
    if b == [] {
      assert a + b == a;
    } else {
      var n := |b| - 1;
      assert (a + b)[..|a + b| - 1] == a + b[..n];
      FilterMapAppend(a, b[..n], f);
    }
  }

  /** When `f` keeps every element unchanged, the comprehension is the identity. */
  lemma {:induction false} FilterMapKeepsAll<A>(s: seq<A>, f: A -> Option<A>)
    requires forall i :: 0 <= i < |s| ==> f(s[i]) == Some(s[i])
    ensures FilterMap(s, f) == s
  {
    if s != [] {
      var n := |s| - 1;
      var init := s[..n];
      assert forall i :: 0 <= i < n ==> f(init[i]) == Some(init[i]) by {
        forall i | 0 <= i < n ensures f(init[i]) == Some(init[i]) {
          assert init[i] == s[i];
        }
      }
      FilterMapKeepsAll(init, f);
      assert s == init + [s[n]];
    }
  }

  /** The comprehension never grows its input. */
  lemma {:induction false} FilterMapShorter<A, B>(s: seq<A>, f: A -> Option<B>)
    ensures |FilterMap(s, f)| <= |s|
  {
    if s != [] {
      FilterMapShorter(s[..|s| - 1], f);
    }
  }
}
