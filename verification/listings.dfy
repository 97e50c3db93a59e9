/**
 * The `{"symbol": ..., "price": ...}` records that both `nasdaq_tickers.py`
 * and `update_tickers_json.py` collect, and the in-place
 * `tickers.sort(key=lambda x: x["symbol"])` they end with. Python's sort is
 * stable and compares keys with `<` only; `Sort` is the insertion sort that
 * does the same, and the lemmas show it orders the records, keeps
 * exactly the same records, and keeps records with equal symbols in their
 * original order (which together pin down Python's result).
 */
module Listings {
  import opened Text

  datatype Listing<P> = Listing(symbol: string, price: P)

  function Symbols<P>(ls: seq<Listing<P>>): (r: seq<string>)
    ensures |r| == |ls|
    ensures forall i :: 0 <= i < |ls| ==> r[i] == ls[i].symbol
  {
    seq(|ls|, i requires 0 <= i < |ls| => ls[i].symbol)
  }

  /** Ascending by symbol: no later record has a symbol below an earlier one's. */
  predicate SortedBySymbol<P>(ls: seq<Listing<P>>) {
    forall i, j :: 0 <= i < j < |ls| ==> !Below(ls[j].symbol, ls[i].symbol)
  }

  /**
   * Insert `x` into `ls` after every record whose symbol is not above `x`'s,
   * scanning from the back as the inner loop of the sort does.
   */
  function Insert<P>(ls: seq<Listing<P>>, x: Listing<P>): (r: seq<Listing<P>>)
    ensures |r| == |ls| + 1
  {
    if ls == [] then [x]
    else if Below(x.symbol, ls[|ls| - 1].symbol) then Insert(ls[..|ls| - 1], x) + [ls[|ls| - 1]]
    else ls + [x]
  }

  /** The order `list.sort` leaves the records in: each inserted in turn into the sorted prefix. */
  function Sort<P>(ls: seq<Listing<P>>): (r: seq<Listing<P>>)
    ensures |r| == |ls|
  {
    if ls == [] then [] else Insert(Sort(ls[..|ls| - 1]), ls[|ls| - 1])
  }

  /** The records with symbol `sym`, in order. */
  function WithSymbol<P>(ls: seq<Listing<P>>, sym: string): seq<Listing<P>> {
    if ls == [] then []
    else WithSymbol(ls[..|ls| - 1], sym) + (if ls[|ls| - 1].symbol == sym then [ls[|ls| - 1]] else [])
  }

  lemma {:induction false} InsertSorted<P>(ls: seq<Listing<P>>, x: Listing<P>)
    requires SortedBySymbol(ls)
    ensures SortedBySymbol(Insert(ls, x))
    ensures forall k :: 0 <= k < |Insert(ls, x)| ==> Insert(ls, x)[k] == x || Insert(ls, x)[k] in ls
  {
    if ls != [] {
      var n := |ls| - 1;
      var last := ls[n];
      if Below(x.symbol, last.symbol) {
        assert SortedBySymbol(ls[..n]);
        InsertSorted(ls[..n], x);
        var front := Insert(ls[..n], x);
        forall k | 0 <= k < |front|
          ensures !Below(last.symbol, front[k].symbol)
        {
          if front[k] == x {
            BelowIrreflexive(x.symbol);
            if Below(last.symbol, x.symbol) {
              BelowTransitive(x.symbol, last.symbol, x.symbol);
            }
          } else {
            assert front[k] in ls[..n];
          }
        }
        assert forall k :: 0 <= k < |front| ==> (front + [last])[k] == front[k];
      } else {
        forall k | 0 <= k < n
          ensures !Below(x.symbol, ls[k].symbol)
        {
          NotBelowTransitive(ls[k].symbol, last.symbol, x.symbol);
        }
      }
    }
  }

  /** The sort's result is ascending by symbol. */
  lemma {:induction false} SortIsSorted<P>(ls: seq<Listing<P>>)
    ensures SortedBySymbol(Sort(ls))
  {
    if ls != [] {
      SortIsSorted(ls[..|ls| - 1]);
      InsertSorted(Sort(ls[..|ls| - 1]), ls[|ls| - 1]);
    }
  }

  lemma {:induction false} InsertPermutes<P>(ls: seq<Listing<P>>, x: Listing<P>)
    ensures multiset(Insert(ls, x)) == multiset(ls) + multiset{x}
  {
    if ls != [] {
      var n := |ls| - 1;
      if Below(x.symbol, ls[n].symbol) {
        InsertPermutes(ls[..n], x);
        assert ls == ls[..n] + [ls[n]];
      }
    }
  }

  /** The sort's result holds exactly the records it was given, as often as given. */
  lemma {:induction false} SortPermutes<P>(ls: seq<Listing<P>>)
    ensures multiset(Sort(ls)) == multiset(ls)
  {
    if ls != [] {
      var n := |ls| - 1;
      SortPermutes(ls[..n]);
      InsertPermutes(Sort(ls[..n]), ls[n]);
      assert ls == ls[..n] + [ls[n]];
    }
  }

  lemma {:induction false} WithSymbolAppend<P>(a: seq<Listing<P>>, b: seq<Listing<P>>, sym: string)
    ensures WithSymbol(a + b, sym) == WithSymbol(a, sym) + WithSymbol(b, sym)
  {
    if b == [] {
      assert a + b == a;
    } else {
      var n := |b| - 1;
      assert (a + b)[..|a + b| - 1] == a + b[..n];
      WithSymbolAppend(a, b[..n], sym);
    }
  }

  lemma {:induction false} InsertStable<P>(ls: seq<Listing<P>>, x: Listing<P>, sym: string)
    ensures WithSymbol(Insert(ls, x), sym) == WithSymbol(ls, sym) + WithSymbol([x], sym)
  {
    assert [x][..0] == [];
    if ls == [] {
    } else {
      var n := |ls| - 1;
      var last := ls[n];
      if Below(x.symbol, last.symbol) {
        InsertStable(ls[..n], x, sym);
        WithSymbolAppend(Insert(ls[..n], x), [last], sym);
        assert [last][..0] == [];
        BelowIrreflexive(x.symbol);
      } else {
        WithSymbolAppend(ls, [x], sym);
      }
    }
  }

  /** Stability: for every symbol, the records carrying it keep their original relative order. */
  lemma {:induction false} SortIsStable<P>(ls: seq<Listing<P>>, sym: string)
    ensures WithSymbol(Sort(ls), sym) == WithSymbol(ls, sym)
  {
    if ls != [] {
      var n := |ls| - 1;
      SortIsStable(ls[..n], sym);
      InsertStable(Sort(ls[..n]), ls[n], sym);
      assert [ls[n]][..0] == [];
    }
  }

  /** One step back of the inner loop: `x` moves in front of a record whose symbol is above its own. */
  lemma InsertStepBack<P>(prefix: seq<Listing<P>>, j: nat, x: Listing<P>)
    requires 0 < j <= |prefix|
    requires Below(x.symbol, prefix[j - 1].symbol)
    ensures Insert(prefix[..j], x) + prefix[j..] == Insert(prefix[..j - 1], x) + prefix[j - 1..]
  {
    assert prefix[..j][..j - 1] == prefix[..j - 1];
    assert prefix[j - 1..] == [prefix[j - 1]] + prefix[j..];
  }

  /** Where the inner loop stops: at the front, or behind a record whose symbol is not above `x`'s. */
  lemma InsertStops<P>(prefix: seq<Listing<P>>, j: nat, x: Listing<P>)
    requires j <= |prefix|
    requires j == 0 || !Below(x.symbol, prefix[j - 1].symbol)
    requires Insert(prefix, x) == Insert(prefix[..j], x) + prefix[j..]
    ensures Insert(prefix, x) == prefix[..j] + [x] + prefix[j..]
  {
    var front := prefix[..j];
    if j > 0 {
      assert front[|front| - 1] == prefix[j - 1];
    }
    assert Insert(front, x) == front + [x];
  }

  /** The inner loop: move `a[i]` back past every record before it whose symbol is above its own. */
  method InsertAt<P>(a: array<Listing<P>>, i: nat)
    requires i < a.Length
    modifies a
    ensures a[..i + 1] == Insert(old(a[..i]), old(a[i]))
    ensures a[i + 1..] == old(a[i + 1..])
  {
    ghost var prefix := a[..i];
    ghost var rest := a[i + 1..];
    var x := a[i];
    var j := i;
    assert prefix[..j] == prefix;
    while j > 0 && Below(x.symbol, a[j - 1].symbol)
      invariant 0 <= j <= i
      invariant forall k :: 0 <= k < j ==> a[k] == prefix[k]
      invariant a[j] == x
      invariant forall k :: j < k <= i ==> a[k] == prefix[k - 1]
      invariant a[i + 1..] == rest
      invariant Insert(prefix, x) == Insert(prefix[..j], x) + prefix[j..]
    {
      InsertStepBack(prefix, j, x);
      a[j - 1], a[j] := a[j], a[j - 1];
      j := j - 1;
    }
    InsertStops(prefix, j, x);
    Placed(a[..], prefix, j, x);
  }

  /** The array after the inner loop: `prefix` with `x` placed at `j`. */
  lemma Placed<P>(cur: seq<Listing<P>>, prefix: seq<Listing<P>>, j: nat, x: Listing<P>)
    requires j <= |prefix| < |cur|
    requires forall k :: 0 <= k < j ==> cur[k] == prefix[k]
    requires cur[j] == x
    requires forall k :: j < k <= |prefix| ==> cur[k] == prefix[k - 1]
    ensures cur[..|prefix| + 1] == prefix[..j] + [x] + prefix[j..]
  {
    var placed := prefix[..j] + [x] + prefix[j..];
    forall k | 0 <= k <= |prefix|
      ensures cur[..|prefix| + 1][k] == placed[k]
    {
      if k > j {
        assert placed[k] == prefix[j..][k - j - 1];
      }
    }
  }

  /** `list.sort(key=symbol)` on the array `a`, in place: an insertion sort. */
  method SortInPlace<P>(a: array<Listing<P>>)
    modifies a
    ensures a[..] == Sort(old(a[..]))
  {
    ghost var orig := a[..];
    for i := 0 to a.Length
      invariant a[..i] == Sort(orig[..i])
      invariant a[i..] == orig[i..]
    {
      InsertAt(a, i);
      assert orig[..i + 1][..i] == orig[..i];
      assert a[i + 1..] == orig[i + 1..];
    }
    assert a[..a.Length] == a[..] && orig[..a.Length] == orig;
  }
}
