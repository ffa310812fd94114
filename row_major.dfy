/** Rank-independent reference definitions of row-major (C order) addressing.
    A grid's extents are listed outer axis first; the innermost (last) axis
    varies fastest in the linear storage. The fixed-rank shapes in module
    Grids are proved to agree with these definitions. */
module RowMajor {

  /** Number of cells of a grid with extents `e`: the product of the extents
      (1 for the empty product). */
  function Product(e: seq<nat>): nat
  {
    if |e| == 0 then 1 else e[0] * Product(e[1..])
  }

  /** The row-major stride table: the stride of axis k is the number of cells
      of the sub-grid formed by the axes inner to k. */
  function RowMajorStrides(e: seq<nat>): (s: seq<nat>)
    ensures |s| == |e|
  {
    if |e| == 0 then [] else [Product(e[1..])] + RowMajorStrides(e[1..])
  }

  /** Dot product of two equally long vectors of naturals. */
  function Dot(a: seq<nat>, b: seq<nat>): nat
    requires |a| == |b|
  {
    if |a| == 0 then 0 else a[0] * b[0] + Dot(a[1..], b[1..])
  }

  /** Every axis of `index` lies below the extent of that axis. */
  predicate InBounds(index: seq<nat>, extents: seq<nat>)
  {
    |index| == |extents| && forall k :: 0 <= k < |index| ==> index[k] < extents[k]
  }

  /** The linear offset of `index` in a row-major grid of `extents`. */
  function Offset(index: seq<nat>, extents: seq<nat>): nat
    requires |index| == |extents|
  {
    Dot(index, RowMajorStrides(extents))
  }

  /** The reference definitions on vectors of one, two and three axes. */
  lemma Unfold1(a: nat, x: nat)
    ensures Product([a]) == a
    ensures RowMajorStrides([a]) == [1]
    ensures Dot([a], [x]) == a * x
  {
    assert [a][1..] == [];
    assert [x][1..] == [];
  }

  lemma Unfold2(a: nat, b: nat, x: nat, y: nat)
    ensures Product([a, b]) == a * b
    ensures RowMajorStrides([a, b]) == [b, 1]
    ensures Dot([a, b], [x, y]) == a * x + b * y
  {
    assert [a, b][1..] == [b];
    assert [x, y][1..] == [y];
    Unfold1(b, y);
  }

  lemma Unfold3(a: nat, b: nat, c: nat, x: nat, y: nat, z: nat)
    ensures Product([a, b, c]) == a * b * c
    ensures RowMajorStrides([a, b, c]) == [b * c, c, 1]
    ensures Dot([a, b, c], [x, y, z]) == a * x + b * y + c * z
  {
    assert [a, b, c][1..] == [b, c];
    assert [x, y, z][1..] == [y, z];
    Unfold2(b, c, y, z);
  }

  lemma {:induction false} DotSymmetric(a: seq<nat>, b: seq<nat>)
    requires |a| == |b|
    ensures Dot(a, b) == Dot(b, a)
  {
    if |a| > 0 {
      DotSymmetric(a[1..], b[1..]);
    }
  }

  /** The stride of axis k is the product of the extents after k. */
  lemma {:induction false} StrideIsInnerProduct(e: seq<nat>, k: nat)
    requires k < |e|
    ensures RowMajorStrides(e)[k] == Product(e[k + 1..])
  {
    if k > 0 {
      StrideIsInnerProduct(e[1..], k - 1);
      assert e[1..][k..] == e[k + 1..];
    }
  }

  /** The row-major law: the last stride is 1 and each stride is the next
      axis's extent times the next stride. */
  lemma {:induction false} StridesAreRowMajor(e: seq<nat>)
    requires |e| > 0
    ensures RowMajorStrides(e)[|e| - 1] == 1
    ensures forall k :: 0 <= k < |e| - 1 ==>
      RowMajorStrides(e)[k] == e[k + 1] * RowMajorStrides(e)[k + 1]
  {
    StrideIsInnerProduct(e, |e| - 1);
    assert e[|e|..] == [];
    forall k | 0 <= k < |e| - 1
      ensures RowMajorStrides(e)[k] == e[k + 1] * RowMajorStrides(e)[k + 1]
    {
      StrideStep(e, k);
    }
  }

  lemma StrideStep(e: seq<nat>, k: nat)
    requires k + 1 < |e|
    ensures RowMajorStrides(e)[k] == e[k + 1] * RowMajorStrides(e)[k + 1]
  {
    StrideIsInnerProduct(e, k);
    StrideIsInnerProduct(e, k + 1);
    var tail := e[k + 1..];
    assert tail[0] == e[k + 1];
    assert tail[1..] == e[k + 2..];
    assert Product(tail) == tail[0] * Product(tail[1..]);
  }

  lemma MulMono(x: nat, y: nat, p: nat)
    requires x <= y
    ensures x * p <= y * p
  {}

  /** Splits an offset into its outermost axis and the offset inside the
      remaining sub-grid. */
  lemma OffsetUnfold(index: seq<nat>, extents: seq<nat>)
    requires |index| == |extents| > 0
    ensures Offset(index, extents)
         == index[0] * Product(extents[1..]) + Offset(index[1..], extents[1..])
  {
    assert RowMajorStrides(extents)[1..] == RowMajorStrides(extents[1..]);
  }

  /** An in-bounds index addresses a cell inside the storage. */
  lemma {:induction false} OffsetBelowProduct(index: seq<nat>, extents: seq<nat>)
    requires InBounds(index, extents)
    ensures Offset(index, extents) < Product(extents)
  {
    if |index| > 0 {
      var inner := extents[1..];
      assert InBounds(index[1..], inner) by {
        forall k | 0 <= k < |index[1..]| ensures index[1..][k] < inner[k] {
          assert index[1..][k] == index[k + 1];
        }
      }
      OffsetBelowProduct(index[1..], inner);
      OffsetUnfold(index, extents);
      MulMono(index[0] + 1, extents[0], Product(inner));
    }
  }

  /** Two numbers written in a mixed radix with the same lower base agree digit by digit. */
  lemma DigitsUnique(a: nat, t: nat, b: nat, u: nat, p: nat)
    requires t < p && u < p && a * p + t == b * p + u
    ensures a == b && t == u
  {
    if a < b {
      MulMono(a + 1, b, p);
      assert false;
    } else if b < a {
      MulMono(b + 1, a, p);
      assert false;
    }
  }

  /** Distinct in-bounds indices have distinct offsets. */
  lemma {:induction false} OffsetInjective(i: seq<nat>, j: seq<nat>, extents: seq<nat>)
    requires InBounds(i, extents) && InBounds(j, extents)
    requires Offset(i, extents) == Offset(j, extents)
    ensures i == j
  {
    if |extents| > 0 {
      var inner := extents[1..];
      assert InBounds(i[1..], inner) by {
        forall k | 0 <= k < |i[1..]| ensures i[1..][k] < inner[k] {
          assert i[1..][k] == i[k + 1];
        }
      }
      assert InBounds(j[1..], inner) by {
        forall k | 0 <= k < |j[1..]| ensures j[1..][k] < inner[k] {
          assert j[1..][k] == j[k + 1];
        }
      }
      OffsetUnfold(i, extents);
      OffsetUnfold(j, extents);
      OffsetBelowProduct(i[1..], inner);
      OffsetBelowProduct(j[1..], inner);
      DigitsUnique(i[0], Offset(i[1..], inner), j[0], Offset(j[1..], inner), Product(inner));
      OffsetInjective(i[1..], j[1..], inner);
      assert i == [i[0]] + i[1..];
      assert j == [j[0]] + j[1..];
    }
  }
}
