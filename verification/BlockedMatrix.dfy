/** The blocked matrix kernel: sixteen dot products at a time into a 4 by 4 tile, for any
    arithmetic on the entries and any order of the row blocks. */
module BlockedMatrix {
  import opened Blocks

  datatype Arithmetic<!T> = Arithmetic(zero: T, add: (T, T) -> T, mul: (T, T) -> T)

  /** A square matrix of n rows, stored row by row. */
  type Matrix<T> = seq<T>

  function Entry<T>(m: Matrix<T>, n: nat, r: nat, c: nat): T
    requires |m| == Points(n, n) && r < n && c < n
  {
    PartBounds(r, n, n);
    m[Points(r, n) + c]
  }

  /** The sum of the first k products of row r of a with row c of b, from the left. */
  function Dot<T>(f: Arithmetic<T>, a: Matrix<T>, b: Matrix<T>, n: nat, r: nat, c: nat, k: nat): T
    requires |a| == |b| == Points(n, n) && r < n && c < n && k <= n
  {
    if k == 0 then f.zero
    else f.add(Dot(f, a, b, n, r, c, k - 1), f.mul(Entry(a, n, r, k - 1), Entry(b, n, c, k - 1)))
  }

  /** Zero and one as they should be, on the left of a product. */
  ghost predicate LeftUnit<T(!new)>(f: Arithmetic<T>, one: T) {
    forall x {:trigger f.mul(one, x)} {:trigger f.mul(f.zero, x)} ::
      f.mul(one, x) == x && f.mul(f.zero, x) == f.zero && f.add(f.zero, x) == x && f.add(x, f.zero) == x
  }

  /** A row of a with a one at place p picks column p of the transpose of b. */
  lemma {:induction false} UnitRowPicks<T(!new)>(f: Arithmetic<T>, one: T, a: Matrix<T>, b: Matrix<T>, n: nat, r: nat, c: nat, p: nat, k: nat)
    requires LeftUnit(f, one) && |a| == |b| == Points(n, n) && r < n && c < n && p < n && k <= n
    requires forall i :: 0 <= i < n ==> Entry(a, n, r, i) == if i == p then one else f.zero
    ensures Dot(f, a, b, n, r, c, k) == if p < k then Entry(b, n, c, p) else f.zero
  {
    if k > 0 {
      UnitRowPicks(f, one, a, b, n, r, c, p, k - 1);
      var x, y := Entry(b, n, c, k - 1), Entry(b, n, c, p);
      assert Entry(a, n, r, k - 1) == if k - 1 == p then one else f.zero;
      assert f.mul(one, x) == x && f.mul(f.zero, x) == f.zero && f.mul(one, y) == y && f.mul(one, f.zero) == f.zero;
    }
  }

  /** n rows of n entries. */
  ghost predicate Square<T>(rows: seq<seq<T>>, n: nat) {
    |rows| == n && forall r :: 0 <= r < n ==> |rows[r]| == n
  }

  /** The rows of the product of a with the transpose of b. */
  ghost predicate IsProduct<T>(f: Arithmetic<T>, a: Matrix<T>, b: Matrix<T>, n: nat, prod: seq<seq<T>>)
    requires |a| == |b| == Points(n, n)
  {
    Square(prod, n) && forall r, c :: 0 <= r < n && 0 <= c < n ==> prod[r][c] == Dot(f, a, b, n, r, c, n)
  }

  ghost function ProductRows<T>(f: Arithmetic<T>, a: Matrix<T>, b: Matrix<T>, n: nat): (prod: seq<seq<T>>)
    requires |a| == |b| == Points(n, n)
    ensures IsProduct(f, a, b, n, prod)
  {
    seq(n, r requires 0 <= r < n => seq(n, c requires 0 <= c < n => Dot(f, a, b, n, r, c, n)))
  }

  function Rows<T>(m: Matrix<T>, n: nat): (rows: seq<seq<T>>)
    requires |m| == Points(n, n)
    ensures Square(rows, n)
  {
    Split(m, n, n)
  }

  // ------------------------------------------------------------------ one tile

  method Put<T>(m: array<T>, n: nat, r: nat, c: nat, x: T)
    requires m.Length == Points(n, n) && r < n && c < n
    modifies m
    ensures Rows(m[..], n) == old(Rows(m[..], n))[r := old(Rows(m[..], n))[r][c := x]]
  {
    PartBounds(r, n, n);
    PointsIsProduct(r, n);
    m[r * n + c] := x;
    forall q | 0 <= q < n ensures Rows(m[..], n)[q] == if q == r then old(Rows(m[..], n))[r][c := x] else old(Rows(m[..], n))[q] {
      PartBounds(q, n, n);
      if q < r {
        PartBounds(q, r, n);
      } else if r < q {
        PartBounds(r, q, n);
      }
    }
  }

  /** The sixteen sums of a tile, in one pass over the inner index. */
  method TileSums<T>(f: Arithmetic<T>, a: Matrix<T>, b: Matrix<T>, n: nat, i: nat, j: nat, ghost prod: seq<seq<T>>)
    returns (sums: seq<seq<T>>)
    requires |a| == |b| == Points(n, n) && i + 4 <= n && j + 4 <= n && IsProduct(f, a, b, n, prod)
    ensures |sums| == 4 && forall p :: 0 <= p < 4 ==> sums[p] == prod[i + p][j..j + 4]
  {
    var r1, r2, r3, r4 := f.zero, f.zero, f.zero, f.zero;
    var r5, r6, r7, r8 := f.zero, f.zero, f.zero, f.zero;
    var r9, r10, r11, r12 := f.zero, f.zero, f.zero, f.zero;
    var r13, r14, r15, r16 := f.zero, f.zero, f.zero, f.zero;
    for k := 0 to n
      invariant r1 == Dot(f, a, b, n, i, j, k) && r2 == Dot(f, a, b, n, i, j + 1, k) && r3 == Dot(f, a, b, n, i, j + 2, k) && r4 == Dot(f, a, b, n, i, j + 3, k)
      invariant r5 == Dot(f, a, b, n, i + 1, j, k) && r6 == Dot(f, a, b, n, i + 1, j + 1, k) && r7 == Dot(f, a, b, n, i + 1, j + 2, k) && r8 == Dot(f, a, b, n, i + 1, j + 3, k)
      invariant r9 == Dot(f, a, b, n, i + 2, j, k) && r10 == Dot(f, a, b, n, i + 2, j + 1, k) && r11 == Dot(f, a, b, n, i + 2, j + 2, k) && r12 == Dot(f, a, b, n, i + 2, j + 3, k)
      invariant r13 == Dot(f, a, b, n, i + 3, j, k) && r14 == Dot(f, a, b, n, i + 3, j + 1, k) && r15 == Dot(f, a, b, n, i + 3, j + 2, k) && r16 == Dot(f, a, b, n, i + 3, j + 3, k)
    {
      r1 := f.add(r1, f.mul(Entry(a, n, i, k), Entry(b, n, j, k)));
      r2 := f.add(r2, f.mul(Entry(a, n, i, k), Entry(b, n, j + 1, k)));
      r3 := f.add(r3, f.mul(Entry(a, n, i, k), Entry(b, n, j + 2, k)));
      r4 := f.add(r4, f.mul(Entry(a, n, i, k), Entry(b, n, j + 3, k)));
      r5 := f.add(r5, f.mul(Entry(a, n, i + 1, k), Entry(b, n, j, k)));
      r6 := f.add(r6, f.mul(Entry(a, n, i + 1, k), Entry(b, n, j + 1, k)));
      r7 := f.add(r7, f.mul(Entry(a, n, i + 1, k), Entry(b, n, j + 2, k)));
      r8 := f.add(r8, f.mul(Entry(a, n, i + 1, k), Entry(b, n, j + 3, k)));
      r9 := f.add(r9, f.mul(Entry(a, n, i + 2, k), Entry(b, n, j, k)));
      r10 := f.add(r10, f.mul(Entry(a, n, i + 2, k), Entry(b, n, j + 1, k)));
      r11 := f.add(r11, f.mul(Entry(a, n, i + 2, k), Entry(b, n, j + 2, k)));
      r12 := f.add(r12, f.mul(Entry(a, n, i + 2, k), Entry(b, n, j + 3, k)));
      r13 := f.add(r13, f.mul(Entry(a, n, i + 3, k), Entry(b, n, j, k)));
      r14 := f.add(r14, f.mul(Entry(a, n, i + 3, k), Entry(b, n, j + 1, k)));
      r15 := f.add(r15, f.mul(Entry(a, n, i + 3, k), Entry(b, n, j + 2, k)));
      r16 := f.add(r16, f.mul(Entry(a, n, i + 3, k), Entry(b, n, j + 3, k)));
    }
    sums := [[r1, r2, r3, r4], [r5, r6, r7, r8], [r9, r10, r11, r12], [r13, r14, r15, r16]];
  }

  /** Four neighbouring entries of a row. */
  method PutFour<T>(m: array<T>, n: nat, r: nat, j: nat, xs: seq<T>)
    requires m.Length == Points(n, n) && r < n && j + 4 <= n && |xs| == 4
    modifies m
    ensures Rows(m[..], n) == old(Rows(m[..], n))[r := Overwritten(old(Rows(m[..], n))[r], j, xs)]
  {
    Put(m, n, r, j, xs[0]);
    Put(m, n, r, j + 1, xs[1]);
    Put(m, n, r, j + 2, xs[2]);
    Put(m, n, r, j + 3, xs[3]);
  }

  function Overwritten<T>(row: seq<T>, j: nat, xs: seq<T>): (s: seq<T>)
    requires |xs| == 4 && j + 4 <= |row|
    ensures |s| == |row|
  {
    row[j := xs[0]][j + 1 := xs[1]][j + 2 := xs[2]][j + 3 := xs[3]]
  }

  // ----------------------------------------------------------------- four rows

  /** The four rows from i on are those of the product up to column j, the first p of them four
      columns further; all else is as before. */
  ghost predicate TileDone<T>(prod: seq<seq<T>>, n: nat, i: nat, j: nat, p: nat, before: seq<seq<T>>, rows: seq<seq<T>>) {
    && Square(prod, n) && Square(before, n) && Square(rows, n)
    && forall r, c :: 0 <= r < n && 0 <= c < n ==>
         rows[r][c] == if i <= r < i + 4 && c < (if r < i + p then j + 4 else j) then prod[r][c] else before[r][c]
  }

  lemma TileStep<T>(prod: seq<seq<T>>, n: nat, i: nat, j: nat, p: nat, before: seq<seq<T>>, rows: seq<seq<T>>)
    requires j + 4 <= n && p < 4 && i + 4 <= n && TileDone(prod, n, i, j, p, before, rows)
    ensures TileDone(prod, n, i, j, p + 1, before, rows[i + p := Overwritten(rows[i + p], j, prod[i + p][j..j + 4])])
  {}

  /** One 4 by 4 tile. */
  method Tile<T>(f: Arithmetic<T>, a: Matrix<T>, b: Matrix<T>, m: array<T>, n: nat, i: nat, j: nat,
                 ghost prod: seq<seq<T>>, ghost before: seq<seq<T>>)
    requires |a| == |b| == m.Length == Points(n, n) && i + 4 <= n && j + 4 <= n && IsProduct(f, a, b, n, prod)
    requires TileDone(prod, n, i, j, 0, before, Rows(m[..], n))
    modifies m
    ensures TileDone(prod, n, i, j + 4, 0, before, Rows(m[..], n))
  {
    var sums := TileSums(f, a, b, n, i, j, prod);
    for p := 0 to 4
      invariant TileDone(prod, n, i, j, p, before, Rows(m[..], n))
    {
      TileStep(prod, n, i, j, p, before, Rows(m[..], n));
      PutFour(m, n, i + p, j, sums[p]);
    }
  }

  /** The block of four rows that starts at i is that of the product; the others are as before. */
  ghost predicate BodyDone<T>(prod: seq<seq<T>>, n: nat, i: nat, before: seq<seq<T>>, rows: seq<seq<T>>) {
    && Square(prod, n) && Square(before, n) && Square(rows, n)
    && forall r :: 0 <= r < n ==> rows[r] == if i % 4 == 0 && i <= r < i + 4 then prod[r] else before[r]
  }

  /** The loop body for one i: four rows of the product if i is a multiple of 4, else nothing. */
  method Body<T>(f: Arithmetic<T>, a: Matrix<T>, b: Matrix<T>, m: array<T>, n: nat, i: nat, ghost prod: seq<seq<T>>)
    requires |a| == |b| == m.Length == Points(n, n) && n % 4 == 0 && i < n && IsProduct(f, a, b, n, prod)
    modifies m
    ensures BodyDone(prod, n, i, old(Rows(m[..], n)), Rows(m[..], n))
  {
    if i % 4 == 0 {
      ghost var before := Rows(m[..], n);
      var j := 0;
      while j < n
        invariant 0 <= j <= n && j % 4 == 0 && TileDone(prod, n, i, j, 0, before, Rows(m[..], n))
      {
        Tile(f, a, b, m, n, i, j, prod, before);
        j := j + 4;
      }
    }
  }

  /** The parallel loop in any order: the plain product, whatever the entries were before. */
  method Multiply<T>(f: Arithmetic<T>, a: Matrix<T>, b: Matrix<T>, m: array<T>, n: nat, order: seq<nat>)
    requires |a| == |b| == m.Length == Points(n, n) && n % 4 == 0
    requires multiset(order) == multiset(seq(n, i requires 0 <= i => i))
    modifies m
    ensures forall r, c :: 0 <= r < n && 0 <= c < n ==> Entry(m[..], n, r, c) == Dot(f, a, b, n, r, c, n)
  {
    ghost var prod := ProductRows(f, a, b, n);
    OrderCovers(order, n);
    for k := 0 to |order|
      invariant forall r :: 0 <= r < n && r - r % 4 in order[..k] ==> Rows(m[..], n)[r] == prod[r]
    {
      assert order[k] in order;
      Body(f, a, b, m, n, order[k], prod);
    }
    assert order[..|order|] == order;
    forall r, c | 0 <= r < n && 0 <= c < n ensures Entry(m[..], n, r, c) == Dot(f, a, b, n, r, c, n) {
      assert Rows(m[..], n)[r] == prod[r];
      ChunkAt(m[..], r, c, n, n);
    }
  }

  lemma OrderCovers(order: seq<nat>, n: nat)
    requires multiset(order) == multiset(seq(n, i requires 0 <= i => i))
    ensures forall i: nat :: i in order <==> i < n
  {
    var all := seq(n, i requires 0 <= i => i);
    forall i: nat ensures i in order <==> i < n {
      assert i in order <==> i in multiset(order);
      assert i in all <==> i in multiset(all);
      assert i < n ==> all[i] == i;
    }
  }
}
