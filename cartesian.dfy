/** The index enumerator `cartesian` (SCFPotential.py:424-457): the table of every index
    tuple for a list of axis sizes, first axis varying slowest. The Python code fills
    column 0 with `repeat(arange(s0), m)`, recursively fills the top block of the remaining
    columns, and copies that block down `s0 - 1` times. */
module Cartesian {
  import opened Common

  /** The number of index tuples, numpy.prod of the sizes. */
  function Prod(sizes: seq<nat>): nat
  {
    if |sizes| == 0 then 1 else sizes[0] * Prod(sizes[1..])
  }

  /** The block size `m = n / arrays[0].size` (Python 2 integer division; numpy turns the
      integer 0 / 0 into 0). */
  function Block(sizes: seq<nat>): nat
    requires |sizes| > 0
  {
    if sizes[0] == 0 then 0 else Prod(sizes) / sizes[0]
  }

  lemma BlockIsTailProd(sizes: seq<nat>)
    requires |sizes| > 0 && sizes[0] > 0
    ensures Block(sizes) == Prod(sizes[1..])
  {
    var a, b := sizes[0], Prod(sizes[1..]);
    DivModUnique(a * b, a, b, 0);
  }

  /** The mixed-radix digits of row `i`, column 0 most significant. */
  function Digits(sizes: seq<nat>, i: nat): (d: seq<nat>)
    requires i < Prod(sizes)
    ensures |d| == |sizes|
    ensures forall j :: 0 <= j < |d| ==> d[j] < sizes[j]
    decreases |sizes|
  {
    if |sizes| == 0 then []
    else
      var m := Prod(sizes[1..]);
      DigitSplit(sizes[0], m, i);
      var rest := Digits(sizes[1..], i % m);
      forall j | 1 <= j < |sizes| ensures rest[j - 1] < sizes[j] {
        assert sizes[1..][j - 1] == sizes[j];
      }
      [i / m] + rest
  }

  lemma DigitSplit(s0: nat, m: nat, i: nat)
    requires i < s0 * m
    ensures m > 0 && i / m < s0 && i % m < m
  {
    if m > 0 && i / m >= s0 {
      MulMono(s0, i / m, m);
    }
  }

  /** Row `i` of the table is its block number followed by row `i % m` of the sub-table. */
  lemma DigitsUnfold(sizes: seq<nat>, i: nat, m: nat)
    requires |sizes| > 0 && i < Prod(sizes) && m == Prod(sizes[1..])
    ensures m > 0 && i % m < Prod(sizes[1..])
    ensures Digits(sizes, i) == [i / m] + Digits(sizes[1..], i % m)
  {
    DigitSplit(sizes[0], m, i);
  }

  /** The row number of an index tuple (Horner evaluation of the mixed-radix digits). */
  function Index(sizes: seq<nat>, t: seq<nat>): (i: nat)
    requires |t| == |sizes|
    requires forall j :: 0 <= j < |t| ==> t[j] < sizes[j]
    ensures i < Prod(sizes)
    decreases |sizes|
  {
    if |sizes| == 0 then 0
    else
      var m := Prod(sizes[1..]);
      var rest := Index(sizes[1..], t[1..]);
      assert t[0] * m + rest < sizes[0] * m by {
        MulMono(t[0] + 1, sizes[0], m);
        assert (t[0] + 1) * m == t[0] * m + m;
      }
      t[0] * m + rest
  }

  /** Row `Index(t)` of the table is `t`: every index tuple appears in the table. */
  lemma {:induction false} DigitsOfIndex(sizes: seq<nat>, t: seq<nat>)
    requires |t| == |sizes|
    requires forall j :: 0 <= j < |t| ==> t[j] < sizes[j]
    ensures Digits(sizes, Index(sizes, t)) == t
    decreases |sizes|
  {
    if |sizes| > 0 {
      var m := Prod(sizes[1..]);
      var rest := Index(sizes[1..], t[1..]);
      DivModUnique(Index(sizes, t), m, t[0], rest);
      DigitsOfIndex(sizes[1..], t[1..]);
    }
  }

  /** Reading a row back gives its number: no index tuple appears twice. */
  lemma {:induction false} IndexOfDigits(sizes: seq<nat>, i: nat)
    requires i < Prod(sizes)
    ensures Index(sizes, Digits(sizes, i)) == i
    decreases |sizes|
  {
    if |sizes| > 0 {
      var m := Prod(sizes[1..]);
      DigitSplit(sizes[0], m, i);
      IndexOfDigits(sizes[1..], i % m);
      assert Digits(sizes, i)[1..] == Digits(sizes[1..], i % m);
    }
  }

  /** Strict lexicographic order on index tuples of equal length. */
  predicate LexLess(a: seq<nat>, b: seq<nat>)
    requires |a| == |b|
  {
    exists k :: 0 <= k < |a| && a[..k] == b[..k] && a[k] < b[k]
  }

  lemma DivOrder(i: nat, j: nat, m: nat)
    requires i < j && m > 0
    ensures i / m < j / m || (i / m == j / m && i % m < j % m)
  {
    var qi, qj := i / m, j / m;
    if qi > qj {
      MulMono(qj + 1, qi, m);
    }
  }

  lemma LexPrepend(x: nat, y: nat, a: seq<nat>, b: seq<nat>)
    requires |a| == |b|
    requires x < y || (x == y && LexLess(a, b))
    ensures LexLess([x] + a, [y] + b)
  {
    var xa, yb := [x] + a, [y] + b;
    if x < y {
      assert xa[..0] == yb[..0];
    } else {
      var k :| 0 <= k < |a| && a[..k] == b[..k] && a[k] < b[k];
      assert xa[..k + 1] == [x] + a[..k];
      assert yb[..k + 1] == [y] + b[..k];
      assert xa[k + 1] == a[k] && yb[k + 1] == b[k];
    }
  }

  /** Rows come out in strictly increasing lexicographic order. */
  lemma {:induction false} DigitsOrdered(sizes: seq<nat>, i: nat, j: nat)
    requires i < j < Prod(sizes)
    ensures LexLess(Digits(sizes, i), Digits(sizes, j))
    decreases |sizes|
  {
    var rest := sizes[1..];
    var m := Prod(rest);
    DigitsUnfold(sizes, i, m);
    DigitsUnfold(sizes, j, m);
    DivOrder(i, j, m);
    if i / m == j / m {
      DigitsOrdered(rest, i % m, j % m);
    }
    LexPrepend(i / m, j / m, Digits(rest, i % m), Digits(rest, j % m));
  }

  /** The numpy broadcast in `out[:,0] = repeat(arange(s0), m)` (and in the recursive calls)
      fails: the repeated column has `n` entries, the slice of `out` it goes into has `rows`,
      and numpy accepts only equal lengths or a single entry. */
  predicate Fails(sizes: seq<nat>, rows: nat)
    requires |sizes| > 0
    decreases |sizes|
  {
    var n := Prod(sizes);
    (n != rows && n != 1) || (|sizes| > 1 && Fails(sizes[1..], Min(Block(sizes), rows)))
  }

  /** Some suffix of the shape starting at `lo` or later has two or more tuples. */
  predicate LaterPlural(sizes: seq<nat>, lo: nat)
  {
    exists k :: lo <= k < |sizes| && Prod(sizes[k..]) >= 2
  }

  lemma LaterPluralShift(sizes: seq<nat>, lo: nat)
    requires |sizes| > 0
    ensures LaterPlural(sizes, lo + 1) <==> LaterPlural(sizes[1..], lo)
  {
    if LaterPlural(sizes, lo + 1) {
      var k :| lo + 1 <= k < |sizes| && Prod(sizes[k..]) >= 2;
      assert sizes[1..][k - 1..] == sizes[k..];
    }
    if LaterPlural(sizes[1..], lo) {
      var k :| lo <= k < |sizes| - 1 && Prod(sizes[1..][k..]) >= 2;
      assert sizes[1..][k..] == sizes[k + 1..];
    }
  }

  /** When the sub-block has no rows the call fails as soon as some suffix has two or
      more tuples to write into it. */
  lemma {:induction false} FailsWithoutRows(sizes: seq<nat>)
    requires |sizes| > 0
    ensures Fails(sizes, 0) <==> LaterPlural(sizes, 0)
    decreases |sizes|
  {
    assert sizes[0..] == sizes;
    LaterPluralShift(sizes, 0);
    if |sizes| > 1 {
      FailsWithoutRows(sizes[1..]);
      assert Min(Block(sizes), 0) == 0;
    } else {
      assert !LaterPlural(sizes, 1);
    }
  }

  /** The top-level call (its `out` has exactly `Prod(sizes)` rows) fails exactly when an
      empty axis comes before a part of the shape with two or more tuples. In particular
      it never fails when every size is positive. */
  lemma {:induction false} FailsCharacterised(sizes: seq<nat>)
    requires |sizes| > 0
    ensures Fails(sizes, Prod(sizes)) <==> Prod(sizes) == 0 && LaterPlural(sizes, 1)
    decreases |sizes|
  {
    if |sizes| == 1 {
      assert !LaterPlural(sizes, 1);
    } else {
      var rest := sizes[1..];
      LaterPluralShift(sizes, 0);
      LaterPluralShift(sizes, 1);
      if sizes[0] > 0 {
        BlockIsTailProd(sizes);
        MulMono(1, sizes[0], Prod(rest));
        assert Min(Block(sizes), Prod(sizes)) == Prod(rest);
        FailsCharacterised(rest);
        assert Prod(sizes) == 0 <==> Prod(rest) == 0;
        assert rest[0..] == rest;
      } else {
        assert Min(Block(sizes), Prod(sizes)) == 0;
        FailsWithoutRows(rest);
      }
    }
  }

  /** A shape with no empty axis has at least one tuple. */
  lemma {:induction false} ProdPositive(sizes: seq<nat>)
    requires forall i :: 0 <= i < |sizes| ==> sizes[i] > 0
    ensures Prod(sizes) > 0
  {
    if |sizes| > 0 {
      ProdPositive(sizes[1..]);
      MulMono(1, sizes[0], Prod(sizes[1..]));
    }
  }

  /** The table for a single axis of size k is the column 0, 1, ..., k - 1, and building it
      never fails. */
  lemma SingleAxis(k: nat)
    ensures Prod([k]) == k && !Fails([k], k)
    ensures forall i :: 0 <= i < k ==> Digits([k], i) == [i]
  {
    assert [k][1..] == [];
    forall i | 0 <= i < k
      ensures Digits([k], i) == [i]
    {
      DigitsUnfold([k], i, 1);
    }
  }

  /** `out[to:to+count, c0:c1] = out[0:count, c0:c1]`, the block copy of line 456. */
  method CopyRows(out: array2<nat>, to: nat, count: nat, c0: nat, c1: nat)
    requires count <= to && to + count <= out.Length0 && c0 <= c1 <= out.Length1
    modifies out
    ensures forall i, c :: to <= i < to + count && c0 <= c < c1 ==> out[i, c] == old(out[i - to, c])
    ensures forall i, c :: 0 <= i < out.Length0 && 0 <= c < out.Length1 ==>
      (to <= i < to + count && c0 <= c < c1) || out[i, c] == old(out[i, c])
  {
    for i := 0 to count
      invariant forall p, c :: to <= p < to + i && c0 <= c < c1 ==> out[p, c] == old(out[p - to, c])
      invariant forall p, c :: 0 <= p < out.Length0 && 0 <= c < out.Length1 ==>
        (to <= p < to + i && c0 <= c < c1) || out[p, c] == old(out[p, c])
    {
      for c := c0 to c1
        invariant forall p, d :: to <= p < to + i && c0 <= d < c1 ==> out[p, d] == old(out[p - to, d])
        invariant forall d :: c0 <= d < c ==> out[to + i, d] == old(out[i, d])
        invariant forall p, d :: 0 <= p < out.Length0 && 0 <= d < out.Length1 ==>
          (to <= p < to + i && c0 <= d < c1) || (p == to + i && c0 <= d < c) || out[p, d] == old(out[p, d])
      {
        out[to + i, c] := out[i, c];
      }
    }
  }

  /** `out[:,0] = repeat(arange(s0), m)`: entry `i` of the column is `i / m`. */
  method RepeatColumn(out: array2<nat>, col: nat, rows: nat, m: nat)
    requires rows <= out.Length0 && col < out.Length1
    requires rows > 0 ==> m > 0
    modifies out
    ensures forall i :: 0 <= i < rows ==> out[i, col] == i / m
    ensures forall i, c :: 0 <= i < out.Length0 && 0 <= c < out.Length1 ==>
      (i < rows && c == col) || out[i, c] == old(out[i, c])
  {
    for i := 0 to rows
      invariant forall p :: 0 <= p < i ==> out[p, col] == p / m
      invariant forall p, c :: 0 <= p < out.Length0 && 0 <= c < out.Length1 ==>
        (p < i && c == col) || out[p, c] == old(out[p, c])
    {
      out[i, col] := i / m;
    }
  }

  /** Rows [0, rows) of the columns after `col` hold the sub-table for `rest`, repeated
      every Prod(rest) rows. */
  ghost predicate Repeated(out: array2<nat>, rest: seq<nat>, col: nat, rows: nat)
    reads out
  {
    Prod(rest) > 0 && rows <= out.Length0 && col + 1 + |rest| <= out.Length1 &&
    forall p, c :: 0 <= p < rows && col < c <= col + |rest| ==>
      out[p, c] == Digits(rest, p % Prod(rest))[c - col - 1]
  }

  /** The loop of lines 455-456: with the top block of `m = Prod(rest)` rows filled, copy
      it into blocks 1 .. s0 - 1 of the columns after `col`. */
  method CopyBlocks(out: array2<nat>, rest: seq<nat>, col: nat, s0: nat)
    requires Prod(rest) > 0 && s0 > 0 && s0 * Prod(rest) <= out.Length0 && col + 1 + |rest| <= out.Length1
    requires forall p, c :: 0 <= p < Prod(rest) && col < c <= col + |rest| ==>
      out[p, c] == Digits(rest, p)[c - col - 1]
    modifies out
    ensures forall p, c :: 0 <= p < s0 * Prod(rest) && col < c <= col + |rest| ==>
      out[p, c] == Digits(rest, p % Prod(rest))[c - col - 1]
    ensures forall p, c :: 0 <= p < out.Length0 && 0 <= c < out.Length1 ==>
      (p < s0 * Prod(rest) && col < c <= col + |rest|) || out[p, c] == old(out[p, c])
  {
    var m := Prod(rest);
    ghost var total := s0 * m;
    RepeatedBase(out, rest, col);
    BlockBelow(0, s0, m);
    var j, top := 1, m;
    while j < s0
      invariant 1 <= j <= s0 && top == j * m && top <= total
      invariant Repeated(out, rest, col, top)
      invariant forall p, c :: 0 <= p < out.Length0 && 0 <= c < out.Length1 ==>
        (p < total && col < c <= col + |rest|) || out[p, c] == old(out[p, c])
    {
      BlockBelow(j, s0, m);
      CopyBlock(out, rest, col, j, top);
      j, top := j + 1, top + m;
    }
  }

  /** The top block holds the sub-table itself: row p < m is row p % m = p. */
  lemma RepeatedBase(out: array2<nat>, rest: seq<nat>, col: nat)
    requires Prod(rest) > 0 && Prod(rest) <= out.Length0 && col + 1 + |rest| <= out.Length1
    requires forall p, c :: 0 <= p < Prod(rest) && col < c <= col + |rest| ==>
      out[p, c] == Digits(rest, p)[c - col - 1]
    ensures Repeated(out, rest, col, Prod(rest))
  {
    forall p, c | 0 <= p < Prod(rest) && col < c <= col + |rest|
      ensures out[p, c] == Digits(rest, p % Prod(rest))[c - col - 1]
    {
      DivModUnique(p, Prod(rest), 0, p);
    }
  }

  /** Block j of m rows ends inside the s0 * m rows when j < s0. */
  lemma BlockBelow(j: nat, s0: nat, m: nat)
    requires j < s0
    ensures j * m + m == (j + 1) * m <= s0 * m
  {
    MulMono(j + 1, s0, m);
  }

  /** One pass `out[j*m:(j+1)*m, col+1:] = out[0:m, col+1:]` of that loop: block j then
      holds the sub-table too, each of its rows p being row p % m of the sub-table. */
  method CopyBlock(out: array2<nat>, rest: seq<nat>, col: nat, j: nat, top: nat)
    requires j >= 1 && Repeated(out, rest, col, top) && top == j * Prod(rest)
    requires top + Prod(rest) <= out.Length0
    modifies out
    ensures Repeated(out, rest, col, top + Prod(rest))
    ensures forall p, c :: 0 <= p < out.Length0 && 0 <= c < out.Length1 ==>
      (top <= p < top + Prod(rest) && col < c <= col + |rest|) || out[p, c] == old(out[p, c])
  {
    var m := Prod(rest);
    MulMono(1, j, m);
    CopyRows(out, top, m, col + 1, col + 1 + |rest|);
    forall p, c | top <= p < top + m && col < c <= col + |rest|
      ensures out[p, c] == Digits(rest, p % m)[c - col - 1]
    {
      DivModUnique(p, m, j, p - top);
      DivModUnique(p - top, m, 0, p - top);
    }
  }

  /** The recursive body of `cartesian` with `out` given: writes the table for `sizes` into
      rows [0, rows) and columns [col, col + |sizes|) of `out`. `rows` is the number of rows
      of the slice the caller passed, which is either the full count or, once an axis of
      size 0 has been met, zero. */
  method Fill(out: array2<nat>, sizes: seq<nat>, col: nat, rows: nat) returns (ok: bool)
    requires |sizes| > 0
    requires rows == 0 || rows == Prod(sizes)
    requires rows <= out.Length0 && col + |sizes| <= out.Length1
    modifies out
    ensures ok <==> !Fails(sizes, rows)
    ensures ok ==> forall i, c :: 0 <= i < rows && col <= c < col + |sizes| ==>
      out[i, c] == Digits(sizes, i)[c - col]
    ensures forall i, c :: 0 <= i < out.Length0 && 0 <= c < out.Length1 ==>
      (i < rows && col <= c < col + |sizes|) || out[i, c] == old(out[i, c])
    decreases |sizes|
  {
    var n := Prod(sizes);
    var m := Block(sizes);
    if n != rows && n != 1 {
      return false;
    }
    if rows > 0 {
      BlockIsTailProd(sizes);
      MulMono(1, sizes[0], m);
    }
    RepeatColumn(out, col, rows, m);
    ok := true;
    if |sizes| > 1 {
      var rest := sizes[1..];
      ok := Fill(out, rest, col + 1, Min(m, rows));
      if !ok {
        return;
      }
      // for j in xrange(1, s0): out[j*m:(j+1)*m, 1:] = out[0:m, 1:]; every slice is
      // empty when there are no rows
      if rows > 0 {
        CopyBlocks(out, rest, col, sizes[0]);
        assert rows == sizes[0] * m;
        forall i, c | 0 <= i < rows && col <= c < col + |sizes|
          ensures out[i, c] == Digits(sizes, i)[c - col]
        {
          DigitsUnfold(sizes, i, m);
          if c > col {
            assert out[i, c] == Digits(rest, i % m)[c - col - 1];
          }
        }
      }
    } else if rows > 0 {
      forall i | 0 <= i < rows
        ensures out[i, col] == Digits(sizes, i)[0]
      {
        DigitsUnfold(sizes, i, m);
      }
    }
  }

  /** `cartesian(arraySizes)`: a table with one row per index tuple, row `i` holding the
      mixed-radix digits of `i`. `ok` is false where the Python call raises: an empty size
      list (`arrays[0]`) or a failing broadcast. */
  method Cartesian(sizes: seq<nat>) returns (ok: bool, out: array2<nat>)
    ensures fresh(out)
    ensures ok <==> |sizes| > 0 && !Fails(sizes, Prod(sizes))
    ensures ok ==> out.Length0 == Prod(sizes) && out.Length1 == |sizes|
    ensures ok ==> forall i, c :: 0 <= i < out.Length0 && 0 <= c < out.Length1 ==>
      out[i, c] == Digits(sizes, i)[c]
  {
    if |sizes| == 0 {
      out := new nat[0, 0];
      return false, out;
    }
    var n := Prod(sizes);
    out := new nat[n, |sizes|]((_, _) => 0);
    ok := Fill(out, sizes, 0, n);
  }
}
