/** How a file is cut into pieces: piece i of n runs from floor(length*i/n) to
  * floor(length*(i+1)/n) (utils/peer2peer.c). */
module Partition {
  import opened CTypes

  /** `(int) ((long) fileLen * (long) i / (long) n)`; CFits says why no width matters. */
  function Offset(fileLen: nat, i: nat, n: nat): nat
    requires 0 < n
  {
    fileLen * i / n
  }

  lemma MulMonotone(m: nat, i: nat, j: nat)
    requires i <= j
    ensures m * i <= m * j
  {
  }

  lemma MulStep(n: nat, x: nat, y: nat)
    ensures x < y ==> n * x + n <= n * y
  {
    if x < y {
      MulMonotone(n, x + 1, y);
    }
  }

  lemma DivMonotone(a: nat, b: nat, n: nat)
    requires 0 < n && a <= b
    ensures a / n <= b / n
  {
    var q, r := a / n, b / n;
    assert a == n * q + a % n && b == n * r + b % n;
    MulStep(n, r, q);
  }

  /** Offsets grow with the piece number and end at the length of the file. */
  lemma OffsetMonotone(fileLen: nat, i: nat, j: nat, n: nat)
    requires 0 < n && i <= j
    ensures Offset(fileLen, i, n) <= Offset(fileLen, j, n)
  {
    MulMonotone(fileLen, i, j);
    DivMonotone(fileLen * i, fileLen * j, n);
  }

  function PieceLen(fileLen: nat, i: nat, n: nat): nat
    requires 0 < n
  {
    OffsetMonotone(fileLen, i, i + 1, n);
    Offset(fileLen, i + 1, n) - Offset(fileLen, i, n)
  }

  lemma DivExact(q: nat, n: nat)
    requires 0 < n
    ensures q * n / n == q
  {
    var r := q * n / n;
    assert q * n == n * r + (q * n) % n;
    MulStep(n, r, q);
    MulStep(n, q, r);
  }

  lemma OffsetEnds(fileLen: nat, n: nat)
    requires 0 < n
    ensures Offset(fileLen, 0, n) == 0 && Offset(fileLen, n, n) == fileLen
  {
    DivExact(fileLen, n);
  }

  /** x is at most a/n exactly when n*x is at most a. */
  lemma DivBound(a: nat, n: nat, x: nat)
    requires 0 < n
    ensures x <= a / n <==> n * x <= a
  {
    var q := a / n;
    assert n * q <= a < n * q + n;
    MulStep(n, q, x);
    if x <= q {
      MulMonotone(n, x, q);
    }
  }

  /** The offset is the rounded-down share, and no other number. */
  lemma OffsetIsFloor(fileLen: nat, i: nat, n: nat, x: nat)
    requires 0 < n
    ensures x == Offset(fileLen, i, n) <==> n * x <= fileLen * i < n * (x + 1)
  {
    DivBound(fileLen * i, n, x);
    DivBound(fileLen * i, n, x + 1);
  }

  /** Nothing overflows: the product fits a 64-bit long and the result a 32-bit int. */
  lemma CFits(fileLen: nat, i: nat, n: nat)
    requires fileLen < INT_LIMIT && 0 < n < INT_LIMIT && i <= n
    ensures fileLen * i < LONG_LIMIT
    ensures Offset(fileLen, i, n) <= fileLen < INT_LIMIT
  {
    MulMonotone(fileLen, i, n);
    MulMonotone(n, fileLen, INT_LIMIT);
    OffsetMonotone(fileLen, i, n, n);
    OffsetEnds(fileLen, n);
  }

  lemma Distribute(n: nat, x: nat, y: nat)
    ensures n * (x + y) == n * x + n * y
  {
  }

  lemma DivSum(a: nat, c: nat, n: nat)
    requires 0 < n
    ensures a / n + c / n <= (a + c) / n <= a / n + c / n + 1
  {
    var q, k := a / n, c / n;
    DivBound(a, n, q);
    DivBound(c, n, k);
    DivBound(a, n, q + 1);
    DivBound(c, n, k + 1);
    Distribute(n, q, k);
    Distribute(n, q + 1, k + 1);
    DivBound(a + c, n, q + k);
    DivBound(a + c, n, q + k + 2);
  }

  /** Every piece has the rounded-down or the rounded-up share of the file. */
  lemma Balanced(fileLen: nat, i: nat, n: nat)
    requires 0 < n
    ensures fileLen / n <= PieceLen(fileLen, i, n) <= fileLen / n + 1
  {
    assert fileLen * (i + 1) == fileLen * i + fileLen;
    DivSum(fileLen * i, fileLen, n);
  }

  predicate Holds(fileLen: nat, n: nat, i: nat, b: nat)
    requires 0 < n
  {
    Offset(fileLen, i, n) <= b < Offset(fileLen, i + 1, n)
  }

  lemma PieceOf(fileLen: nat, n: nat, b: nat, k: nat) returns (i: nat)
    requires 0 < n && k <= n && b < Offset(fileLen, k, n)
    ensures i < k && Holds(fileLen, n, i, b)
  {
    OffsetEnds(fileLen, n);
    i := k - 1;
    if b < Offset(fileLen, k - 1, n) {
      i := PieceOf(fileLen, n, b, k - 1);
    }
  }

  lemma Disjoint(fileLen: nat, n: nat, b: nat, i: nat, j: nat)
    requires 0 < n && Holds(fileLen, n, i, b) && Holds(fileLen, n, j, b)
    ensures i >= j
  {
    if i < j {
      OffsetMonotone(fileLen, i + 1, j, n);
    }
  }

  /** The pieces cover the file without gap or overlap: every byte lies in exactly one. */
  lemma Tiles(fileLen: nat, n: nat, b: nat)
    requires 0 < n && b < fileLen
    ensures exists i :: 0 <= i < n && Holds(fileLen, n, i, b)
    ensures forall i, j :: 0 <= i < n && 0 <= j < n && Holds(fileLen, n, i, b) && Holds(fileLen, n, j, b)
              ==> i == j
  {
    OffsetEnds(fileLen, n);
    var k := PieceOf(fileLen, n, b, n);
    forall i, j | 0 <= i < n && 0 <= j < n && Holds(fileLen, n, i, b) && Holds(fileLen, n, j, b)
      ensures i == j
    {
      Disjoint(fileLen, n, b, i, j);
      Disjoint(fileLen, n, b, j, i);
    }
  }

  /** Two pieces that start at the same byte and have the same length are the same piece,
    * or are empty. */
  lemma SamePiece(fileLen: nat, i: nat, j: nat, n: nat)
    requires 0 < n
    requires Offset(fileLen, i, n) == Offset(fileLen, j, n)
    requires PieceLen(fileLen, i, n) == PieceLen(fileLen, j, n)
    ensures i == j || PieceLen(fileLen, i, n) == 0
  {
    OffsetMonotone(fileLen, i, i + 1, n);
    if i < j {
      OffsetMonotone(fileLen, i + 1, j, n);
    } else if j < i {
      OffsetMonotone(fileLen, j + 1, i, n);
    }
  }

  /** Where piece i lies inside the file. */
  lemma PieceInside(fileLen: nat, i: nat, n: nat)
    requires 0 < n && i < n
    ensures Offset(fileLen, i, n) + PieceLen(fileLen, i, n) <= fileLen
  {
    OffsetMonotone(fileLen, i, i + 1, n);
    OffsetMonotone(fileLen, i + 1, n, n);
    OffsetEnds(fileLen, n);
  }

  /** A file that has bytes has a piece that has bytes. */
  lemma SomePiece(fileLen: nat, n: nat) returns (i: nat)
    requires 0 < n && 0 < fileLen
    ensures i < n && 0 < PieceLen(fileLen, i, n)
  {
    OffsetEnds(fileLen, n);
    i := PieceOf(fileLen, n, 0, n);
  }

  /** If there are at least as many bytes as pieces, none is empty. */
  lemma NoneEmpty(fileLen: nat, i: nat, n: nat)
    requires 0 < n <= fileLen
    ensures 0 < PieceLen(fileLen, i, n)
  {
    Balanced(fileLen, i, n);
    DivBound(fileLen, n, 1);
  }
}
