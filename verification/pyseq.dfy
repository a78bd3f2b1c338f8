/** Python list slicing with non-negative bounds, and list concatenation.

    Python never raises on an out-of-range slice: `s[a:b]` keeps the indices
    of `s` that lie in `[a, b)`, so both bounds are clipped to `len(s)`. */
module PySeq {
  import opened Common

  /** `s[a:b]` for `0 <= a` and `0 <= b`. */
  function Slice<T>(s: seq<T>, a: nat, b: nat): (r: seq<T>)
    ensures |r| == Max(0, Min(b, |s|) - a)
    ensures forall k :: 0 <= k < |r| ==> a + k < |s| && r[k] == s[a + k]
  {
    if a >= |s| || b <= a then []
    else s[a..Min(b, |s|)]
  }

  /** `s[a:]` for `0 <= a`. */
  function Suffix<T>(s: seq<T>, a: nat): (r: seq<T>)
    ensures |r| == Max(0, |s| - a)
    ensures forall k :: 0 <= k < |r| ==> r[k] == s[a + k]
  {
    if a >= |s| then [] else s[a..]
  }

  /** Cutting at one point and gluing the two halves back gives the list again. */
  lemma SliceSuffixSplit<T>(s: seq<T>, a: nat)
    ensures Slice(s, 0, a) + Suffix(s, a) == s
  {
    if a < |s| {
      assert Slice(s, 0, a) == s[..a];
      assert Suffix(s, a) == s[a..];
      assert s[..a] + s[a..] == s;
    }
  }

  /** Two adjacent slices glue into one: `s[a:b] + s[b:c] == s[a:c]`. */
  lemma SliceAdjacent<T>(s: seq<T>, a: nat, b: nat, c: nat)
    requires a <= b <= c
    ensures Slice(s, a, b) + Slice(s, b, c) == Slice(s, a, c)
  {
    var l, m, r := Slice(s, a, b), Slice(s, b, c), Slice(s, a, c);
    assert |l| + |m| == |r|;
    forall k | 0 <= k < |r|
      ensures (l + m)[k] == r[k]
    {
      if k < |l| {
        assert (l + m)[k] == l[k];
      } else {
        assert (l + m)[k] == m[k - |l|];
      }
    }
  }

  /** Slicing the suffix `s[a:]` is slicing `s` further along. */
  lemma SliceOfSuffix<T>(s: seq<T>, a: nat, b: nat, c: nat)
    ensures Slice(Suffix(s, a), b, c) == Slice(s, a + b, a + c)
  {
    var l, r := Slice(Suffix(s, a), b, c), Slice(s, a + b, a + c);
    assert |l| == |r|;
    forall k | 0 <= k < |l| ensures l[k] == r[k] {
    }
  }

  /** `range(lo, hi)`: the integers from `lo` up to, not including, `hi`. */
  function Range(lo: nat, hi: nat): (r: seq<nat>)
    ensures |r| == Max(0, hi - lo)
    ensures forall k :: 0 <= k < |r| ==> r[k] == lo + k
    decreases hi - lo
  {
    if lo >= hi then [] else [lo] + Range(lo + 1, hi)
  }

  /** `range(lo, hi)` holds exactly the integers in `[lo, hi)`, each once. */
  lemma RangeMembers(lo: nat, hi: nat)
    ensures forall a, b :: 0 <= a < b < |Range(lo, hi)| ==> Range(lo, hi)[a] != Range(lo, hi)[b]
    ensures forall n :: n in Range(lo, hi) <==> lo <= n < hi
  {
    var r := Range(lo, hi);
    forall n | lo <= n < hi ensures n in r {
      assert r[n - lo] == n;
    }
  }

  /** Concatenation of a list of lists, front to back. */
  function Flatten<T>(g: seq<seq<T>>): seq<T> {
    if |g| == 0 then [] else g[0] + Flatten(g[1..])
  }

  lemma {:induction false} FlattenAppend<T>(g: seq<seq<T>>, row: seq<T>)
    ensures Flatten(g + [row]) == Flatten(g) + row
  {
    if |g| == 0 {
      assert g + [row] == [row];
      assert Flatten([row]) == row + Flatten([row][1..]);
    } else {
      assert (g + [row])[1..] == g[1..] + [row];
      FlattenAppend(g[1..], row);
    }
  }
}
