/** Rectangular 2-D and 3-D arrays as nested sequences, and the numpy shape
    operations the imaging driver uses on them: `np.reshape` of a flat list
    into rows (`data_arr_to_2D`), list repetition (`[x] * k`) and the
    axis-reversing `transpose()` of a 3-D array. */
module Grid {
  import opened Common
  import opened PySeq

  /** `g` has shape `(h, w)`: `h` rows of `w` entries each. */
  predicate IsRect<T>(g: seq<seq<T>>, h: nat, w: nat) {
    |g| == h && forall i :: 0 <= i < h ==> |g[i]| == w
  }

  /** `a` has shape `(d0, d1, d2)`. */
  predicate IsBox<T>(a: seq<seq<seq<T>>>, d0: nat, d1: nat, d2: nat) {
    |a| == d0 && forall n :: 0 <= n < d0 ==> IsRect(a[n], d1, d2)
  }

  /** Index of the first entry of row `i` when rows of `w` entries are laid
      out one after another (row-major order); it equals `i * w`
      (`RowStartIsProduct`). Stated by recursion so that proofs about whole
      arrays stay free of products of two variables. */
  function RowStart(i: nat, w: nat): nat {
    if i == 0 then 0 else RowStart(i - 1, w) + w
  }

  lemma {:induction false} RowStartIsProduct(i: nat, w: nat)
    ensures RowStart(i, w) == i * w
  {
    if i > 0 {
      RowStartIsProduct(i - 1, w);
      assert (i - 1) * w + w == i * w;
    }
  }

  /** Row-major position of entry `(i, j)` when rows hold `w` entries: `i * w + j`. */
  function Index(i: nat, j: nat, w: nat): nat {
    RowStart(i, w) + j
  }

  lemma IndexIsProduct(i: nat, j: nat, w: nat)
    ensures Index(i, j, w) == i * w + j
  {
    RowStartIsProduct(i, w);
  }

  /** Entry `(i, j)` of an `h` by `w` rectangle lies before the end of the last row. */
  lemma {:induction false} RowStartBound(i: nat, j: nat, w: nat, h: nat)
    requires i < h && j < w
    ensures Index(i, j, w) < RowStart(h, w)
    decreases h
  {
    if i < h - 1 {
      RowStartBound(i, j, w, h - 1);
    }
  }

  lemma LessFromMul(a: nat, b: nat, w: nat)
    requires a * w < b * w
    ensures a < b
  {
  }

  /** Index `k` is column `k % w` of row `k / w`. */
  lemma DivModIndex(k: nat, w: nat)
    requires w > 0
    ensures k % w < w && k == Index(k / w, k % w, w)
  {
    RowStartIsProduct(k / w, w);
  }

  /** Every index below `h * w` is the row-major index of exactly one entry:
      the one in row `k / w`, column `k % w`. */
  lemma RowMajorSplit(k: nat, w: nat, h: nat)
    requires k < h * w
    ensures w > 0 && k / w < h && k % w < w && k == Index(k / w, k % w, w)
    ensures forall i: nat, j: nat :: j < w && Index(i, j, w) == k ==> i == k / w && j == k % w
  {
    assert w > 0;
    assert (k / w) * w <= k;
    LessFromMul(k / w, h, w);
    DivModIndex(k, w);
    forall i: nat, j: nat | j < w && Index(i, j, w) == k ensures i == k / w && j == k % w {
      IndexUnique(i, j, k / w, k % w, w);
    }
  }

  /** Every index before the end of row `h - 1` is the row-major index of
      exactly one entry of an `h` by `w` rectangle. */
  lemma RowMajorSplitRows(k: nat, w: nat, h: nat)
    requires k < RowStart(h, w)
    ensures w > 0 && k / w < h && k % w < w && k == Index(k / w, k % w, w)
    ensures forall i: nat, j: nat :: j < w && Index(i, j, w) == k ==> i == k / w && j == k % w
  {
    RowStartIsProduct(h, w);
    RowMajorSplit(k, w, h);
  }

  /** Later rows start later: row `i` ends where row `i + 1` starts, at or
      before the start of any row `j > i`. */
  lemma {:induction false} RowStartMonotone(i: nat, j: nat, w: nat)
    requires i < j
    ensures RowStart(i, w) + w <= RowStart(j, w)
    decreases j
  {
    if i < j - 1 {
      RowStartMonotone(i, j - 1, w);
    }
  }

  /** Two entries of rows of `w` entries with the same row-major index are
      the same entry. */
  lemma IndexUnique(i: nat, j: nat, i2: nat, j2: nat, w: nat)
    requires j < w && j2 < w && Index(i, j, w) == Index(i2, j2, w)
    ensures i == i2 && j == j2
  {
    if i < i2 {
      RowStartMonotone(i, i2, w);
    } else if i2 < i {
      RowStartMonotone(i2, i, w);
    }
  }

  /** Row-major cut of `flat` into `h` rows of `w` entries. */
  function ToRows<T>(flat: seq<T>, w: nat, h: nat): (r: seq<seq<T>>)
    requires |flat| == RowStart(h, w)
    ensures IsRect(r, h, w)
    decreases h
  {
    if h == 0 then []
    else [flat[..w]] + ToRows(flat[w..], w, h - 1)
  }

  /** The reshaped rows hold the flat list in row-major order. */
  lemma {:induction false} ToRowsAt<T>(flat: seq<T>, w: nat, h: nat)
    requires |flat| == RowStart(h, w)
    ensures forall i: nat, j: nat :: i < h && j < w ==>
      Index(i, j, w) < |flat| && ToRows(flat, w, h)[i][j] == flat[Index(i, j, w)]
    decreases h
  {
    if h > 0 {
      var rest := flat[w..];
      ToRowsAt(rest, w, h - 1);
      var r := ToRows(flat, w, h);
      assert r == [flat[..w]] + ToRows(rest, w, h - 1);
      forall i: nat, j: nat | i < h && j < w
        ensures Index(i, j, w) < |flat| && r[i][j] == flat[Index(i, j, w)]
      {
        RowStartBound(i, j, w, h);
        if i > 0 {
          assert Index(i, j, w) == w + Index(i - 1, j, w);
          assert r[i][j] == ToRows(rest, w, h - 1)[i - 1][j] == rest[Index(i - 1, j, w)];
        }
      }
    }
  }

  datatype ReshapeError = SizeMismatch

  /** `data_arr_to_2D(value_arr, im_width, im_height)`, which is
      `np.reshape(value_arr, [im_height, im_width])`: numpy raises when the
      number of entries is not `im_width * im_height`. On success entry
      `[i][j]` is `value_arr[i * w + j]`. */
  function DataArrTo2D<T>(flat: seq<T>, w: nat, h: nat): (r: Result<seq<seq<T>>, ReshapeError>)
    ensures r.Success? <==> |flat| == w * h
    ensures r.Success? ==> IsRect(r.value, h, w)
    ensures r.Success? ==> forall i: nat, j: nat :: i < h && j < w ==>
      Index(i, j, w) < |flat| && r.value[i][j] == flat[Index(i, j, w)]
  {
    RowStartIsProduct(h, w);
    if |flat| == w * h then
      ToRowsAt(flat, w, h);
      Success(ToRows(flat, w, h))
    else Failure(SizeMismatch)
  }

  /** Dropping the first row of a rectangle leaves a rectangle, and the
      flattening starts with that row. */
  lemma DropFirstRow<T>(g: seq<seq<T>>, h: nat, w: nat)
    requires IsRect(g, h, w) && h > 0
    ensures IsRect(g[1..], h - 1, w)
    ensures Flatten(g) == g[0] + Flatten(g[1..])
  {
    var rest := g[1..];
    forall i | 0 <= i < h - 1 ensures |rest[i]| == w {
      assert rest[i] == g[i + 1];
    }
  }

  /** A flattened rectangle has `h * w` entries. */
  lemma {:induction false} FlattenRectLength<T>(g: seq<seq<T>>, h: nat, w: nat)
    requires IsRect(g, h, w)
    ensures |Flatten(g)| == RowStart(h, w)
    decreases h
  {
    if h > 0 {
      DropFirstRow(g, h, w);
      FlattenRectLength(g[1..], h - 1, w);
      LengthStep(h, w);
    }
  }

  /** Entry `(i, j)` of a rectangle lands at index `i * w + j` of its
      flattening. */
  lemma {:induction false} FlattenRectAt<T>(g: seq<seq<T>>, h: nat, w: nat, i: nat, j: nat)
    requires IsRect(g, h, w) && i < h && j < w
    ensures Index(i, j, w) < |Flatten(g)| && Flatten(g)[Index(i, j, w)] == g[i][j]
    decreases i
  {
    FlattenRectLength(g, h, w);
    RowStartBound(i, j, w, h);
    DropFirstRow(g, h, w);
    if i > 0 {
      var rest := g[1..];
      FlattenRectAt(rest, h - 1, w, i - 1, j);
      assert Index(i, j, w) == |g[0]| + Index(i - 1, j, w);
      assert rest[i - 1] == g[i];
    }
  }

  /** Flattening a rectangle: entry `(i, j)` lands at index `i * w + j`. */
  lemma {:induction false} FlattenRect<T>(g: seq<seq<T>>, h: nat, w: nat)
    requires IsRect(g, h, w)
    ensures |Flatten(g)| == RowStart(h, w)
    ensures forall i: nat, j: nat :: i < h && j < w ==>
      Index(i, j, w) < |Flatten(g)| && Flatten(g)[Index(i, j, w)] == g[i][j]
  {
    FlattenRectLength(g, h, w);
    forall i: nat, j: nat | i < h && j < w
      ensures Index(i, j, w) < |Flatten(g)| && Flatten(g)[Index(i, j, w)] == g[i][j]
    {
      FlattenRectAt(g, h, w, i, j);
    }
  }

  /** Adding a row at the front adds `w` entries. */
  lemma {:induction false} LengthStep(h: nat, w: nat)
    requires h > 0
    ensures RowStart(h, w) == w + RowStart(h - 1, w)
  {
  }

  /** Reshaping then flattening gives the flat list back. */
  lemma {:induction false} FlattenToRows<T>(flat: seq<T>, w: nat, h: nat)
    requires |flat| == RowStart(h, w)
    ensures Flatten(ToRows(flat, w, h)) == flat
  {
    var g := ToRows(flat, w, h);
    FlattenRect(g, h, w);
    ToRowsAt(flat, w, h);
    RowStartIsProduct(h, w);
    forall k | 0 <= k < |flat| ensures Flatten(g)[k] == flat[k] {
      RowMajorSplit(k, w, h);
      var i, j := k / w, k % w;
      assert Flatten(g)[Index(i, j, w)] == g[i][j] == flat[Index(i, j, w)];
    }
  }

  /** Flattening then reshaping gives the rectangle back. */
  lemma ToRowsFlatten<T>(g: seq<seq<T>>, h: nat, w: nat)
    requires IsRect(g, h, w)
    ensures |Flatten(g)| == RowStart(h, w)
    ensures ToRows(Flatten(g), w, h) == g
  {
    FlattenRect(g, h, w);
    ToRowsAt(Flatten(g), w, h);
    var r := ToRows(Flatten(g), w, h);
    forall i | 0 <= i < h ensures r[i] == g[i] {
      forall j | 0 <= j < w ensures r[i][j] == g[i][j] {
        assert r[i][j] == Flatten(g)[Index(i, j, w)];
      }
    }
  }

  /** `[x] * k` in Python: `k` copies of `x`. */
  function Repeat<T>(x: T, k: nat): (r: seq<T>)
    ensures |r| == k
    ensures forall i :: 0 <= i < k ==> r[i] == x
  {
    seq(k, _ => x)
  }

  /** numpy's `transpose()` without axes on a 3-D array of shape `(d0, d1, d2)`:
      the axes are reversed, giving shape `(d2, d1, d0)`. The shape is passed
      explicitly because an empty axis hides the lengths behind it. */
  function Transpose3<T>(a: seq<seq<seq<T>>>, d0: nat, d1: nat, d2: nat): (r: seq<seq<seq<T>>>)
    requires IsBox(a, d0, d1, d2)
    ensures IsBox(r, d2, d1, d0)
    ensures forall x, y, z :: 0 <= x < d2 && 0 <= y < d1 && 0 <= z < d0 ==> r[x][y][z] == a[z][y][x]
  {
    seq(d2, x requires 0 <= x < d2 => seq(d1, y requires 0 <= y < d1 => seq(d0, z requires 0 <= z < d0 => a[z][y][x])))
  }

  /** Transposing twice restores the array. */
  lemma TransposeTwice<T>(a: seq<seq<seq<T>>>, d0: nat, d1: nat, d2: nat)
    requires IsBox(a, d0, d1, d2)
    ensures Transpose3(Transpose3(a, d0, d1, d2), d2, d1, d0) == a
  {
    var t := Transpose3(Transpose3(a, d0, d1, d2), d2, d1, d0);
    forall z | 0 <= z < d0 ensures t[z] == a[z] {
      forall y | 0 <= y < d1 ensures t[z][y] == a[z][y] {
      }
    }
  }
}
