/** The trip-count simulator of the loop feature extraction: it runs a literal loop header in
    fixed-width unsigned arithmetic and counts the iterations. */
module TripCount {
  import opened Division
  import opened FiniteSets

  const UINT_MOD := 0x1_0000_0000

  datatype Cond = Less | LessEq | Greater | GreaterEq | NotEq | OtherCond
  datatype Inc = PlusPlus | MinusMinus | Add(n: nat) | Sub(n: nat) | Mul(n: nat) | OtherInc

  /** `for (i = init; i cond bound; inc)` on numbers below `size`, a power of two. */
  datatype Header = Header(size: nat, init: nat, cond: Cond, bound: nat, inc: Inc) {
    predicate Valid() { init < size && bound < size }
  }

  /** The exit tests as they are written. */
  predicate Exit(h: Header, i: nat) {
    match h.cond
    case Less => i >= h.bound
    case LessEq => i > h.bound
    case Greater => !(i <= h.bound)
    case GreaterEq => !(i > h.bound)
    case NotEq => i == h.bound
    case OtherCond => false
  }

  function Next(h: Header, i: nat): (r: nat)
    requires i < h.size
    ensures r < h.size
  {
    match h.inc
    case PlusPlus => (i + 1) % h.size
    case MinusMinus => (i - 1) % h.size
    case Add(n) => (i + n) % h.size
    case Sub(n) => (i - n) % h.size
    case Mul(n) => (i * n) % h.size
    case OtherInc => i
  }

  /** The loop variable after k iterations. */
  function At(h: Header, k: nat): (i: nat)
    requires h.Valid()
    ensures i < h.size
  {
    if k == 0 then h.init else Next(h, At(h, k - 1))
  }

  /** The loop exits for the first time after k iterations. */
  ghost predicate ExitsAfter(h: Header, k: nat)
    requires h.Valid()
  {
    Exit(h, At(h, k)) && forall j: nat :: j < k ==> !Exit(h, At(h, j))
  }

  ghost predicate Ends(h: Header) {
    h.Valid() && exists k: nat :: Exit(h, At(h, k))
  }

  lemma {:induction false} FirstExit(h: Header, k: nat) returns (first: nat)
    requires h.Valid() && Exit(h, At(h, k))
    ensures ExitsAfter(h, first)
  {
    if j: nat :| j < k && Exit(h, At(h, j)) {
      first := FirstExit(h, j);
    } else {
      first := k;
    }
  }

  lemma SomeFirstExit(h: Header)
    requires Ends(h)
    ensures exists k: nat :: ExitsAfter(h, k)
  {
    var k: nat :| Exit(h, At(h, k));
    var first := FirstExit(h, k);
  }

  /** The number of iterations of a loop that ends. */
  ghost function Trips(h: Header): (k: nat)
    requires Ends(h)
    ensures ExitsAfter(h, k)
  {
    SomeFirstExit(h);
    var k: nat :| ExitsAfter(h, k);
    k
  }

  lemma TripsIs(h: Header, k: nat)
    requires h.Valid() && ExitsAfter(h, k)
    ensures Ends(h) && Trips(h) == k
  {
    var t := Trips(h);
    assert ExitsAfter(h, t);
  }

  method Increment(x: nat, ghost k: nat) returns (y: nat)
    requires x == k % UINT_MOD
    ensures y == (k + 1) % UINT_MOD
  {
    y := (x + 1) % UINT_MOD;
  }

  /** The simulation returns the number of iterations, as an unsigned 32-bit number. */
  method CountIterations(h: Header) returns (numIter: nat)
    requires Ends(h)
    ensures numIter == Trips(h) % UINT_MOD
  {
    var i := h.init;
    numIter := 0;
    ghost var k := 0;
    while !Exit(h, i)
      invariant k <= Trips(h) && i == At(h, k) && numIter == k % UINT_MOD
      decreases Trips(h) - k
    {
      i := Next(h, i);
      numIter := Increment(numIter, k);
      k := k + 1;
      assert At(h, k) == Next(h, At(h, k - 1));
    }
  }

  // ------------------------------------------------ it ends soon or not at all

  lemma {:induction false} Repeats(h: Header, i: nat, j: nat, d: nat)
    requires h.Valid() && At(h, i) == At(h, j)
    ensures At(h, i + d) == At(h, j + d)
  {
    if d > 0 {
      Repeats(h, i, j, d - 1);
    }
  }

  /** No value occurs twice before the exit. */
  lemma AllDistinct(h: Header, i: nat, j: nat)
    requires Ends(h) && i < j <= Trips(h)
    ensures At(h, i) != At(h, j)
  {
    if At(h, i) == At(h, j) {
      var d := Trips(h) - j;
      Repeats(h, i, j, d);
      assert false;
    }
  }

  ghost function Seen(h: Header, k: nat): set<nat>
    requires h.Valid()
  {
    if k == 0 then {h.init} else Seen(h, k - 1) + {At(h, k)}
  }

  lemma {:induction false} NotSeen(h: Header, j: nat, k: nat)
    requires Ends(h) && j < k <= Trips(h)
    ensures At(h, k) !in Seen(h, j)
  {
    AllDistinct(h, j, k);
    if j > 0 {
      NotSeen(h, j - 1, k);
    }
  }

  lemma {:induction false} SeenDistinct(h: Header, k: nat)
    requires Ends(h) && k <= Trips(h)
    ensures Seen(h, k) <= Below(h.size) && |Seen(h, k)| == k + 1
  {
    if k > 0 {
      SeenDistinct(h, k - 1);
      NotSeen(h, k - 1, k);
    }
  }

  /** A loop that ends does so in fewer iterations than there are numbers, so for numbers of up
      to 32 bits the count that is returned has not wrapped around. */
  lemma TripsBound(h: Header)
    requires Ends(h)
    ensures Trips(h) < h.size
    ensures h.size <= UINT_MOD ==> Trips(h) % UINT_MOD == Trips(h)
  {
    var k := Trips(h);
    SeenDistinct(h, k);
    FullCount(Seen(h, k), h.size);
  }

  // --------------------------------------------------------------- closed forms

  /** The loop variable changes by d, up or down by less than the number range. */
  predicate StepsBy(h: Header, d: int) {
    0 - h.size < d < h.size && d != 0 &&
    match h.inc
    case PlusPlus => d == 1
    case MinusMinus => d == -1
    case Add(n) => d == n
    case Sub(n) => d == 0 - n
    case _ => false
  }

  /** Without wrapping around, k iterations change the variable by k * d. */
  lemma {:induction false} StrideAt(h: Header, d: int, k: nat)
    requires h.Valid() && StepsBy(h, d) && 0 <= h.init + k * d < h.size
    ensures At(h, k) == h.init + k * d
  {
    if k > 0 {
      StrideBack(h, d, k);
      StrideAt(h, d, k - 1);
      StrideNext(h, d, At(h, k - 1));
    }
  }

  lemma StrideNext(h: Header, d: int, i: nat)
    requires StepsBy(h, d) && i < h.size
    ensures Next(h, i) == if i + d < 0 then i + d + h.size else if i + d < h.size then i + d else i + d - h.size
  {
    Wraps(i + d, h.size);
  }

  lemma StrideBack(h: Header, d: int, k: nat)
    requires h.Valid() && k > 0 && 0 <= h.init + k * d < h.size
    ensures k * d == (k - 1) * d + d && 0 <= h.init + (k - 1) * d < h.size
  {
    Strides(k - 1, k, d);
    Strides(0, k - 1, d);
  }

  /** Fewer strides get less far. */
  lemma Strides(j: nat, k: nat, d: int)
    requires j <= k
    ensures k * d == j * d + (k - j) * d
    ensures (d >= 0 ==> j * d <= k * d) && (d <= 0 ==> j * d >= k * d)
    ensures j + 1 == k ==> k * d == j * d + d
  {
    assert k * d == (j + (k - j)) * d == j * d + (k - j) * d;
    if d >= 0 {
      MultipleGap(j, k, d);
    } else {
      MultipleGap(j, k, -d);
      assert j * -d == -(j * d) && k * -d == -(k * d);
    }
  }

  /** Comparisons that such a loop leaves in the direction it goes. */
  predicate GoesTo(h: Header, d: int) {
    ((h.cond == Less || h.cond == LessEq) && d > 0) || (h.cond == GreaterEq && d < 0)
  }

  /** If k strides are the first to reach the exit, the count is k exactly if they do not leave
      the number range. */
  lemma Straddle(h: Header, d: int, k: nat)
    requires h.Valid() && StepsBy(h, d) && GoesTo(h, d)
    requires k > 0 ==> 0 <= h.init + (k - 1) * d < h.size && !Exit(h, h.init + (k - 1) * d)
    requires 0 <= h.init + k * d < h.size ==> Exit(h, h.init + k * d)
    ensures (Ends(h) && Trips(h) == k) <==> 0 <= h.init + k * d < h.size
  {
    if 0 <= h.init + k * d < h.size {
      StrideAt(h, d, k);
      forall j: nat | j < k ensures !Exit(h, At(h, j)) {
        Before(h, d, k, j);
      }
      TripsIs(h, k);
    } else {
      StrideAt(h, d, k - 1);
      StrideNext(h, d, At(h, k - 1));
      Strides(k - 1, k, d);
      assert !Exit(h, At(h, k));
    }
  }

  lemma Before(h: Header, d: int, k: nat, j: nat)
    requires h.Valid() && StepsBy(h, d) && GoesTo(h, d) && j < k
    requires 0 <= h.init + (k - 1) * d < h.size && !Exit(h, h.init + (k - 1) * d)
    ensures !Exit(h, At(h, j))
  {
    Strides(j, k - 1, d);
    Strides(0, j, d);
    StrideAt(h, d, j);
  }

  /** `i < bound; i += n` or `i++`: the quotient (bound - init) / n rounded up, exactly if so many
      strides stay in the number range. */
  lemma LessAdd(h: Header, n: nat)
    requires h.Valid() && h.cond == Less && n > 0 && StepsBy(h, n)
    ensures var k := if h.init >= h.bound then 0 else (h.bound - h.init + n - 1) / n;
      (Ends(h) && Trips(h) == k) <==> h.init + k * n < h.size
  {
    var d := h.bound - h.init;
    var k := if d <= 0 then 0 else (d + n - 1) / n;
    if d > 0 {
      QuotientIs(d + n - 1, n, k);
      Strides(k - 1, k, n);
      Strides(0, k - 1, n);
    }
    Straddle(h, n, k);
  }

  lemma LessEqAdd(h: Header, n: nat)
    requires h.Valid() && h.cond == LessEq && n > 0 && StepsBy(h, n)
    ensures var k := if h.init > h.bound then 0 else (h.bound - h.init) / n + 1;
      (Ends(h) && Trips(h) == k) <==> h.init + k * n < h.size
  {
    var d := h.bound - h.init;
    var k := if d < 0 then 0 else d / n + 1;
    if d >= 0 {
      QuotientIs(d, n, k - 1);
      Strides(k - 1, k, n);
      Strides(0, k - 1, n);
    }
    Straddle(h, n, k);
  }

  /** `i >= bound; i -= n` or `i--`: the strides down to the bound or past it. */
  function StridesDown(h: Header, n: nat): nat
    requires n > 0
  {
    if h.init <= h.bound then 0 else (h.init - h.bound + n - 1) / n
  }

  lemma GreaterEqSub(h: Header, n: nat)
    requires h.Valid() && h.cond == GreaterEq && n > 0 && StepsBy(h, 0 - n)
    ensures (Ends(h) && Trips(h) == StridesDown(h, n)) <==> StridesDown(h, n) * n <= h.init
  {
    var d := h.init - h.bound;
    var k := StridesDown(h, n);
    assert k * (0 - n) == 0 - k * n && (k > 0 ==> (k - 1) * (0 - n) == 0 - (k - 1) * n);
    if d > 0 {
      QuotientIs(d + n - 1, n, k);
      Strides(k - 1, k, n);
      Strides(0, k - 1, n);
    }
    Straddle(h, 0 - n, k);
  }

  /** Counting up from init, around the end of the number range. */
  lemma {:induction false} PlusPlusAt(h: Header, k: nat)
    requires h.Valid() && h.inc == PlusPlus && k < h.size
    ensures At(h, k) == if h.init + k < h.size then h.init + k else h.init + k - h.size
  {
    if k > 0 {
      PlusPlusAt(h, k - 1);
      Wraps(At(h, k - 1) + 1, h.size);
    }
  }

  /** `i != bound; i++` always ends, after bound - init iterations modulo the size. */
  lemma NotEqPlusPlus(h: Header)
    requires h.Valid() && h.cond == NotEq && h.inc == PlusPlus
    ensures Ends(h) && Trips(h) == (h.bound - h.init) % h.size
  {
    var k: nat := if h.init <= h.bound then h.bound - h.init else h.bound - h.init + h.size;
    PlusPlusAt(h, k);
    forall j: nat | j < k ensures !Exit(h, At(h, j)) {
      PlusPlusAt(h, j);
    }
    TripsIs(h, k);
    QuotientIs(h.bound - h.init, h.size, if h.init <= h.bound then 0 else -1);
  }

  function Power(n: nat, k: nat): nat {
    if k == 0 then 1 else Power(n, k - 1) * n
  }

  lemma {:induction false} PowerGrows(n: nat, j: nat, k: nat)
    requires n >= 1 && j <= k
    ensures 1 <= Power(n, j) <= Power(n, k)
  {
    if k > 0 {
      PowerGrows(n, if j == k then j - 1 else j, k - 1);
      MultipleGap(1, n, Power(n, k - 1));
      assert 1 <= Power(n, k - 1) <= Power(n, k);
    }
  }

  lemma ScaledGrows(a: nat, x: nat, y: nat)
    requires x <= y
    ensures a * x <= a * y
  {
    MultipleGap(x, y, a);
  }

  lemma MulStep(a: nat, p: nat, n: nat)
    ensures a * (p * n) == a * p * n
  {}

  lemma {:induction false} MulAt(h: Header, n: nat, k: nat)
    requires h.Valid() && h.inc == Mul(n) && n >= 1 && h.init * Power(n, k) < h.size
    ensures At(h, k) == h.init * Power(n, k)
  {
    if k > 0 {
      PowerGrows(n, k - 1, k);
      ScaledGrows(h.init, Power(n, k - 1), Power(n, k));
      MulAt(h, n, k - 1);
      MulStep(h.init, Power(n, k - 1), n);
      Wraps(h.init * Power(n, k - 1) * n, h.size);
    }
  }

  /** `i < bound; i *= n` makes the least k with init * n^k >= bound. */
  lemma LessMul(h: Header, n: nat, k: nat)
    requires h.Valid() && h.cond == Less && h.inc == Mul(n) && n >= 1 && h.init * Power(n, k) < h.size
    requires h.init * Power(n, k) >= h.bound && (k > 0 ==> h.init * Power(n, k - 1) < h.bound)
    ensures Ends(h) && Trips(h) == k
  {
    MulAt(h, n, k);
    forall j: nat | j < k ensures !Exit(h, At(h, j)) {
      PowerGrows(n, j, k - 1);
      ScaledGrows(h.init, Power(n, j), Power(n, k - 1));
      MulAt(h, n, j);
    }
    TripsIs(h, k);
  }

  /** There is such a k, as soon as the numbers grow. */
  lemma PowerReaches(a: nat, n: nat, bound: nat) returns (k: nat)
    requires a >= 1 && n >= 2
    ensures a * Power(n, k) >= bound && (k > 0 ==> a * Power(n, k - 1) < bound)
  {
    k := 0;
    while a * Power(n, k) < bound
      invariant k > 0 ==> a * Power(n, k - 1) < bound
      decreases bound - a * Power(n, k)
    {
      PowerGrows(n, k, k);
      MultipleGap(1, n, Power(n, k));
      MultipleGap(Power(n, k), Power(n, k + 1), a);
      k := k + 1;
    }
  }

  // ----------------------------------------------------------- the loop's own exit

  /** When the loop itself leaves: its condition is false. */
  predicate ConditionFails(h: Header, i: nat) {
    match h.cond
    case Less => !(i < h.bound)
    case LessEq => !(i <= h.bound)
    case Greater => !(i > h.bound)
    case GreaterEq => !(i >= h.bound)
    case NotEq => !(i != h.bound)
    case OtherCond => false
  }

  /** The loop itself makes k iterations. */
  ghost predicate LeavesAfter(h: Header, k: nat)
    requires h.Valid()
  {
    ConditionFails(h, At(h, k)) && forall j: nat :: j < k ==> !ConditionFails(h, At(h, j))
  }

  /** The count is the loop's own number of iterations exactly if the comparison is not `>`, and
      with `>=` the variable does not hit the bound. */
  lemma CountFaithful(h: Header)
    requires Ends(h)
    ensures LeavesAfter(h, Trips(h)) <==> h.cond != Greater && (h.cond == GreaterEq ==> At(h, Trips(h)) != h.bound)
  {
    var k := Trips(h);
    assert ExitsAfter(h, k);
    if h.cond != Greater && (h.cond == GreaterEq ==> At(h, k) != h.bound) {
      forall j: nat | j < k ensures !ConditionFails(h, At(h, j)) {
        assert !Exit(h, At(h, j));
      }
    }
  }

  /** For `i >= bound; i -= n` that is known beforehand: the count is right exactly if the loop
      starts below the bound or n does not divide the distance. */
  lemma GreaterEqFaithful(h: Header, n: nat)
    requires h.Valid() && h.cond == GreaterEq && n > 0 && StepsBy(h, 0 - n) && StridesDown(h, n) * n <= h.init
    ensures Ends(h)
    ensures LeavesAfter(h, Trips(h)) <==> h.init < h.bound || (h.init - h.bound) % n != 0
  {
    GreaterEqSub(h, n);
    CountFaithful(h);
    DownAt(h, n);
    HitsExactly(h, n);
  }

  lemma DownAt(h: Header, n: nat)
    requires h.Valid() && h.cond == GreaterEq && n > 0 && StepsBy(h, 0 - n) && StridesDown(h, n) * n <= h.init
    ensures At(h, StridesDown(h, n)) == h.init - StridesDown(h, n) * n
  {
    var k := StridesDown(h, n);
    assert k * (0 - n) == 0 - k * n;
    StrideAt(h, 0 - n, k);
  }

  /** Where it is wrong, and the next stride does not wrap, it is one short. */
  lemma OneShort(h: Header, n: nat)
    requires Ends(h) && h.cond == GreaterEq && StepsBy(h, 0 - n) && 0 < n <= h.bound && !LeavesAfter(h, Trips(h))
    ensures LeavesAfter(h, Trips(h) + 1)
  {
    var k := Trips(h);
    assert ExitsAfter(h, k);
    CountFaithful(h);
    StrideNext(h, 0 - n, h.bound);
    forall j: nat | j < k + 1 ensures !ConditionFails(h, At(h, j)) {
      assert j < k ==> !Exit(h, At(h, j));
    }
  }

  lemma HitsExactly(h: Header, n: nat)
    requires n > 0
    ensures h.init - StridesDown(h, n) * n == h.bound <==> h.init >= h.bound && (h.init - h.bound) % n == 0
  {
    var d := h.init - h.bound;
    var k := StridesDown(h, n);
    if d > 0 {
      QuotientIs(d + n - 1, n, k);
      MultipleRemainder(k, n);
      assert n * k == k * n;
      if d % n == 0 {
        assert d == (d / n) * n;
        MultipleGap(d / n, k, n);
        MultipleGap(k, d / n, n);
      }
    }
  }

  /** A loop `i > bound` that starts above its bound is counted as none, but makes at least one
      iteration. */
  lemma DownwardIsZero(h: Header, k: nat)
    requires h.Valid() && h.cond == Greater && h.init > h.bound
    ensures Ends(h) && Trips(h) == 0
    ensures LeavesAfter(h, k) ==> k > 0
  {
    assert Exit(h, At(h, 0)) && !ConditionFails(h, At(h, 0));
    TripsIs(h, 0);
  }
}
