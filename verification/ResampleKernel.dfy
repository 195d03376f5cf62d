/** The triangle kernel along one axis and two, in exact arithmetic. */
module ResampleKernel {
  function Max(a: real, b: real): real { if a >= b then a else b }

  function Abs(a: real): real { if a >= 0.0 then a else -a }

  function Ceiling(a: real): int { -(-a).Floor }

  function Clamp(a: int, lo: int, hi: int): int { if a < lo then lo else if a > hi then hi else a }

  function Weight(distance: real, support: real): real
    requires support > 0.0
  {
    Max(0.0, 1.0 - Abs(distance / support))
  }

  /** The sum of f over lo <= i < hi. */
  function Sum(f: int -> real, lo: int, hi: int): real
    decreases hi - lo
  {
    if lo >= hi then 0.0 else Sum(f, lo, hi - 1) + f(hi - 1)
  }

  function Times(f: int -> real, w: int -> real): int -> real { i => f(i) * w(i) }

  /** An axis of `n` source samples resampled to `m`. */
  datatype Axis = Axis(n: nat, m: nat) {
    predicate Valid() { n > 0 && m > 0 }

    function Ratio(): (r: real)
      requires Valid()
    {
      n as real / m as real
    }

    function Support(): (r: real)
      requires Valid()
      ensures r >= 1.0
    {
      Max(1.0, Ratio())
    }

    function Center(y: nat): real
      requires Valid()
    {
      (y as real + 0.5) * Ratio()
    }

    function Start(y: nat): int
      requires Valid()
    {
      Clamp((Center(y) - Support()).Floor, 0, n - 1)
    }

    function End(y: nat): int
      requires Valid()
    {
      Clamp(Ceiling(Center(y) + Support()), Start(y) + 1, n)
    }

    /** The weight of source sample s in target sample y. */
    function W(y: nat, s: int): real
      requires Valid()
    {
      Weight(s as real + 0.5 - Center(y), Support())
    }

    function Weights(y: nat): int -> real
      requires Valid()
    {
      s => W(y, s)
    }

    function Total(y: nat): real
      requires Valid()
    {
      Sum(Weights(y), Start(y), End(y))
    }

    /** The resampled value. */
    function Value(f: int -> real, y: nat): real
      requires Valid() && Total(y) != 0.0
    {
      Sum(Times(f, Weights(y)), Start(y), End(y)) / Total(y)
    }
  }

  // ---------- Sums ----------

  function Constant(c: real): int -> real { i => c }

  function Scaled(c: real, f: int -> real): int -> real { i => c * f(i) }

  function Added(f: int -> real, g: int -> real): int -> real { i => f(i) + g(i) }

  lemma {:induction false} SumCongruent(f: int -> real, g: int -> real, lo: int, hi: int)
    requires forall i | lo <= i < hi :: f(i) == g(i)
    ensures Sum(f, lo, hi) == Sum(g, lo, hi)
    decreases hi - lo
  {
    if lo < hi { SumCongruent(f, g, lo, hi - 1); }
  }

  lemma {:induction false} SumSplit(f: int -> real, lo: int, mid: int, hi: int)
    requires lo <= mid <= hi
    ensures Sum(f, lo, hi) == Sum(f, lo, mid) + Sum(f, mid, hi)
    decreases hi - mid
  {
    if mid < hi { SumSplit(f, lo, mid, hi - 1); }
  }

  lemma {:induction false} SumZero(f: int -> real, lo: int, hi: int)
    requires forall i | lo <= i < hi :: f(i) == 0.0
    ensures Sum(f, lo, hi) == 0.0
    decreases hi - lo
  {
    if lo < hi { SumZero(f, lo, hi - 1); }
  }

  lemma {:induction false} SumScaled(f: int -> real, c: real, lo: int, hi: int)
    ensures Sum(Scaled(c, f), lo, hi) == c * Sum(f, lo, hi)
    decreases hi - lo
  {
    if lo < hi { SumScaled(f, c, lo, hi - 1); }
  }

  lemma {:induction false} SumAdded(f: int -> real, g: int -> real, lo: int, hi: int)
    ensures Sum(Added(f, g), lo, hi) == Sum(f, lo, hi) + Sum(g, lo, hi)
    decreases hi - lo
  {
    if lo < hi { SumAdded(f, g, lo, hi - 1); }
  }

  lemma {:induction false} SumBelow(f: int -> real, g: int -> real, lo: int, hi: int)
    requires forall i | lo <= i < hi :: f(i) <= g(i)
    ensures Sum(f, lo, hi) <= Sum(g, lo, hi)
    decreases hi - lo
  {
    if lo < hi { SumBelow(f, g, lo, hi - 1); }
  }

  lemma SumAtLeastOneTerm(f: int -> real, at: int, lo: int, hi: int)
    requires lo <= at < hi && forall i | lo <= i < hi :: f(i) >= 0.0
    ensures Sum(f, lo, hi) >= f(at)
    ensures (forall i | lo <= i < hi && i != at :: f(i) == 0.0) ==> Sum(f, lo, hi) == f(at)
  {
    SumSplit(f, lo, at, hi);
    SumSplit(f, at, at + 1, hi);
    SumBelow(Constant(0.0), f, lo, at);
    SumBelow(Constant(0.0), f, at + 1, hi);
    SumZero(Constant(0.0), lo, at);
    SumZero(Constant(0.0), at + 1, hi);
    assert Sum(f, at, at + 1) == Sum(f, at, at) + f(at);
    if forall i | lo <= i < hi && i != at :: f(i) == 0.0 {
      SumZero(f, lo, at);
      SumZero(f, at + 1, hi);
    }
  }

  // ---------- The window ----------

  lemma SignOfFactor(x: real, s: real)
    requires s > 0.0
    ensures x * s >= 0.0 <==> x >= 0.0
    ensures x * s > 0.0 <==> x > 0.0
  {
  }

  lemma QuotientTimes(d: real, s: real)
    requires s > 0.0
    ensures d / s * s == d
  {
  }

  lemma RatioTimesTargets(axis: Axis)
    requires axis.Valid()
    ensures axis.Ratio() > 0.0 && axis.Ratio() * axis.m as real == axis.n as real
  {
    QuotientTimes(axis.n as real, axis.m as real);
    SignOfFactor(axis.Ratio(), axis.m as real);
  }

  lemma CenterInside(axis: Axis, y: nat)
    requires axis.Valid() && y < axis.m
    ensures 0.0 < axis.Center(y) < axis.n as real
  {
    RatioTimesTargets(axis);
    var r, k, m := axis.Ratio(), y as real + 0.5, axis.m as real;
    SignOfFactor(k, r);
    SignOfFactor(m - k, r);
    assert (m - k) * r == m * r - k * r;
  }

  /** Both ends of the window are indices, and the sample under the centre is inside it. */
  lemma WindowInBounds(axis: Axis, y: nat)
    requires axis.Valid() && y < axis.m
    ensures 0 <= axis.Start(y) <= axis.Center(y).Floor < axis.End(y) <= axis.n
  {
    CenterInside(axis, y);
    var c, s := axis.Center(y), axis.Support();
    assert 0 <= c.Floor < axis.n;
    assert (c - s).Floor <= c.Floor;
    assert Ceiling(c + s) as real >= c + s >= c + 1.0;
    assert Ceiling(c + s) > c.Floor;
  }

  /** Weight is positive exactly inside the support and zero outside it. */
  lemma WeightSupport(d: real, support: real)
    requires support > 0.0
    ensures Weight(d, support) >= 0.0
    ensures Weight(d, support) > 0.0 <==> Abs(d) < support
  {
    var q := d / support;
    QuotientTimes(d, support);
    SignOfFactor(1.0 - q, support);
    SignOfFactor(1.0 + q, support);
    assert (1.0 - q) * support == support - d;
    assert (1.0 + q) * support == support + d;
    assert 1.0 - q > 0.0 <==> support - d > 0.0;
    assert 1.0 + q > 0.0 <==> support + d > 0.0;
    assert Abs(q) < 1.0 <==> Abs(d) < support;
  }

  /** No source sample outside the clamped window has weight. */
  lemma NoWeightOutside(axis: Axis, y: nat, s: int)
    requires axis.Valid() && y < axis.m && 0 <= s < axis.n && !(axis.Start(y) <= s < axis.End(y))
    ensures axis.W(y, s) == 0.0
  {
    CenterInside(axis, y);
    WindowInBounds(axis, y);
    var c, u := axis.Center(y), axis.Support();
    if s < axis.Start(y) {
      assert s < (c - u).Floor;
      assert s as real + 1.0 <= c - u;
    } else {
      assert s >= Ceiling(c + u);
      assert s as real >= c + u;
    }
    WeightSupport(s as real + 0.5 - c, u);
  }

  /** The window sum is the kernel sum over the whole axis, whatever is summed. */
  lemma WindowLosesNothing(axis: Axis, y: nat, f: int -> real)
    requires axis.Valid() && y < axis.m
    ensures Sum(Times(f, axis.Weights(y)), axis.Start(y), axis.End(y)) == Sum(Times(f, axis.Weights(y)), 0, axis.n)
    ensures axis.Total(y) == Sum(axis.Weights(y), 0, axis.n)
  {
    WindowInBounds(axis, y);
    forall s | 0 <= s < axis.n && !(axis.Start(y) <= s < axis.End(y)) ensures axis.Weights(y)(s) == 0.0 {
      NoWeightOutside(axis, y, s);
    }
    OutsideIsZero(Times(f, axis.Weights(y)), axis.Start(y), axis.End(y), axis.n);
    OutsideIsZero(axis.Weights(y), axis.Start(y), axis.End(y), axis.n);
  }

  lemma OutsideIsZero(g: int -> real, a: int, b: int, n: int)
    requires 0 <= a <= b <= n
    requires forall s | 0 <= s < n && !(a <= s < b) :: g(s) == 0.0
    ensures Sum(g, a, b) == Sum(g, 0, n)
  {
    SumSplit(g, 0, a, n);
    SumSplit(g, a, b, n);
    SumZero(g, 0, a);
    SumZero(g, b, n);
  }

  /** The total that each pass divides by is positive. */
  lemma TotalIsPositive(axis: Axis, y: nat)
    requires axis.Valid() && y < axis.m
    ensures axis.Total(y) > 0.0
  {
    WindowInBounds(axis, y);
    var c := axis.Center(y).Floor;
    forall s ensures axis.Weights(y)(s) >= 0.0 {
      WeightSupport(s as real + 0.5 - axis.Center(y), axis.Support());
    }
    WeightSupport(c as real + 0.5 - axis.Center(y), axis.Support());
    SumAtLeastOneTerm(axis.Weights(y), c, axis.Start(y), axis.End(y));
  }

  // ---------- Averages ----------

  lemma MultiplyBetween(lo: real, v: real, hi: real, w: real)
    requires lo <= v <= hi && w >= 0.0
    ensures lo * w <= v * w <= hi * w
  {
    assert (v - lo) * w >= 0.0 && (hi - v) * w >= 0.0;
  }

  lemma DivideBetween(lo: real, sum: real, hi: real, total: real)
    requires total > 0.0 && lo * total <= sum <= hi * total
    ensures lo <= sum / total <= hi
  {
    var q := sum / total;
    QuotientTimes(sum, total);
    SignOfFactor(q - lo, total);
    SignOfFactor(hi - q, total);
    assert (q - lo) * total == q * total - lo * total;
    assert (hi - q) * total == hi * total - q * total;
  }

  lemma ProductsBetween(f: int -> real, w: int -> real, a: int, b: int, lo: real, hi: real)
    requires forall s | a <= s < b :: lo <= f(s) <= hi && w(s) >= 0.0
    ensures forall s | a <= s < b :: Scaled(lo, w)(s) <= Times(f, w)(s) <= Scaled(hi, w)(s)
  {
    forall s | a <= s < b ensures Scaled(lo, w)(s) <= Times(f, w)(s) <= Scaled(hi, w)(s) {
      MultiplyBetween(lo, f(s), hi, w(s));
    }
  }

  lemma WeightedAverage(f: int -> real, w: int -> real, a: int, b: int, lo: real, hi: real)
    requires forall s | a <= s < b :: lo <= f(s) <= hi && w(s) >= 0.0
    requires Sum(w, a, b) > 0.0
    ensures lo <= Sum(Times(f, w), a, b) / Sum(w, a, b) <= hi
  {
    WeightedBounds(f, w, a, b, lo, hi);
    DivideBetween(lo, Sum(Times(f, w), a, b), hi, Sum(w, a, b));
  }

  lemma WeightedBounds(f: int -> real, w: int -> real, a: int, b: int, lo: real, hi: real)
    requires forall s | a <= s < b :: lo <= f(s) <= hi && w(s) >= 0.0
    ensures lo * Sum(w, a, b) <= Sum(Times(f, w), a, b) <= hi * Sum(w, a, b)
  {
    ProductsBetween(f, w, a, b, lo, hi);
    SumBelow(Scaled(lo, w), Times(f, w), a, b);
    SumBelow(Times(f, w), Scaled(hi, w), a, b);
    SumScaled(w, lo, a, b);
    SumScaled(w, hi, a, b);
  }

  /** A resampled value lies between the bounds of the samples. */
  lemma ValueIsAverage(axis: Axis, y: nat, f: int -> real, lo: real, hi: real)
    requires axis.Valid() && y < axis.m
    requires forall s | 0 <= s < axis.n :: lo <= f(s) <= hi
    ensures axis.Total(y) > 0.0 && lo <= axis.Value(f, y) <= hi
  {
    TotalIsPositive(axis, y);
    WindowInBounds(axis, y);
    forall s ensures axis.Weights(y)(s) >= 0.0 {
      WeightSupport(s as real + 0.5 - axis.Center(y), axis.Support());
    }
    WeightedAverage(f, axis.Weights(y), axis.Start(y), axis.End(y), lo, hi);
  }

  /** On an axis that keeps its size, only the sample itself has weight. */
  lemma UnchangedAxisWeights(axis: Axis, y: nat, s: int)
    requires axis.Valid() && y < axis.m && axis.n == axis.m
    ensures axis.W(y, s) == if s == y then 1.0 else 0.0
  {
    UnchangedAxisCenter(axis, y);
    var d := s as real + 0.5 - axis.Center(y);
    assert d == s as real - y as real;
    if s != y { WeightSupport(d, 1.0); }
  }

  lemma UnchangedAxisCenter(axis: Axis, y: nat)
    requires axis.Valid() && y < axis.m && axis.n == axis.m
    ensures axis.Ratio() == 1.0 && axis.Center(y) == y as real + 0.5 && axis.Start(y) <= y < axis.End(y)
  {
    var n := axis.n as real;
    assert n / n == 1.0;
    assert axis.Center(y) == (y as real + 0.5) * 1.0;
    WindowInBounds(axis, y);
    assert axis.Center(y).Floor == y;
  }

  lemma ValueFromSums(axis: Axis, f: int -> real, y: nat, sum: real)
    requires axis.Valid() && axis.Total(y) == 1.0
    requires sum == Sum(Times(f, axis.Weights(y)), axis.Start(y), axis.End(y))
    ensures axis.Value(f, y) == sum
  {
    DivideByOne(sum);
  }

  lemma DivideByOne(x: real)
    ensures x / 1.0 == x
  {
  }

  lemma UnchangedAxisWeightsAll(axis: Axis, y: nat)
    requires axis.Valid() && y < axis.m && axis.n == axis.m
    ensures forall s :: axis.Weights(y)(s) == if s == y then 1.0 else 0.0
  {
    forall s ensures axis.Weights(y)(s) == if s == y then 1.0 else 0.0 {
      UnchangedAxisWeights(axis, y, s);
    }
  }

  /** An axis that keeps its size is copied. */
  lemma UnchangedAxisIsCopied(axis: Axis, y: nat, f: int -> real)
    requires axis.Valid() && y < axis.m && axis.n == axis.m
    ensures axis.Total(y) > 0.0 && axis.Value(f, y) == f(y)
  {
    UnchangedAxisCenter(axis, y);
    UnchangedAxisWeightsAll(axis, y);
    OnlyOneWeight(f, axis.Weights(y), y, axis.Start(y), axis.End(y));
    ValueFromSums(axis, f, y, f(y));
  }

  lemma OnlyOneWeight(f: int -> real, w: int -> real, at: int, a: int, b: int)
    requires a <= at < b && forall s :: w(s) == if s == at then 1.0 else 0.0
    ensures Sum(w, a, b) == 1.0 && Sum(Times(f, w), a, b) == f(at)
  {
    var g := Times(f, w);
    SumSplit(w, a, at, b);
    SumSplit(w, at, at + 1, b);
    SumZero(w, a, at);
    SumZero(w, at + 1, b);
    SumSplit(g, a, at, b);
    SumSplit(g, at, at + 1, b);
    SumZero(g, a, at);
    SumZero(g, at + 1, b);
    assert Sum(w, at, at + 1) == Sum(w, at, at) + w(at);
    assert Sum(g, at, at + 1) == Sum(g, at, at) + g(at);
    assert g(at) == f(at) * 1.0;
  }

  // ---------- Two axes ----------

  function Column(f: (int, int) -> real, x: int): int -> real { i => f(i, x) }

  function Row(f: (int, int) -> real, y: int): int -> real { j => f(y, j) }

  function ColumnSums(f: (int, int) -> real, a: int, b: int): int -> real { j => Sum(Column(f, j), a, b) }

  function RowSums(f: (int, int) -> real, c: int, d: int): int -> real { i => Sum(Row(f, i), c, d) }

  /** Summing the rows first or the columns first gives one total. */
  lemma {:induction false} SumSwap(f: (int, int) -> real, a: int, b: int, c: int, d: int)
    ensures Sum(RowSums(f, c, d), a, b) == Sum(ColumnSums(f, a, b), c, d)
    decreases b - a
  {
    if a >= b {
      SumZero(ColumnSums(f, a, b), c, d);
    } else {
      SumSwap(f, a, b - 1, c, d);
      SumAdded(ColumnSums(f, a, b - 1), Row(f, b - 1), c, d);
      SumCongruent(ColumnSums(f, a, b), Added(ColumnSums(f, a, b - 1), Row(f, b - 1)), c, d);
    }
  }

  function Term(f: (int, int) -> real, v: int -> real, w: int -> real): (int, int) -> real {
    (i, j) => f(i, j) * v(i) * w(j)
  }

  lemma Reorder(x: real, a: real, b: real)
    ensures a * (x * b) == (x * a) * b
    ensures (a * x) * b == a * (b * x)
  {
  }

  lemma InnerColumn(f: (int, int) -> real, v: int -> real, w: int -> real, a: int, b: int, k: real, j: int)
    ensures (k * Sum(Times(Column(f, j), v), a, b)) * w(j) == k * Sum(Column(Term(f, v, w), j), a, b)
  {
    var h := Times(Column(f, j), v);
    SumScaled(h, w(j), a, b);
    SumCongruent(Scaled(w(j), h), Column(Term(f, v, w), j), a, b);
    Reorder(Sum(h, a, b), k, w(j));
  }

  lemma InnerRow(f: (int, int) -> real, v: int -> real, w: int -> real, c: int, d: int, k: real, i: int)
    ensures (k * Sum(Times(Row(f, i), w), c, d)) * v(i) == k * Sum(Row(Term(f, v, w), i), c, d)
  {
    var h := Times(Row(f, i), w);
    SumScaled(h, v(i), c, d);
    forall j ensures Scaled(v(i), h)(j) == Row(Term(f, v, w), i)(j) {
      Reorder(f(i, j), v(i), w(j));
    }
    SumCongruent(Scaled(v(i), h), Row(Term(f, v, w), i), c, d);
    Reorder(Sum(h, c, d), k, v(i));
  }

  /** A weighted window with its scale factor. */
  datatype Window = Window(w: int -> real, a: int, b: int, k: real)

  function Average(win: Window, f: int -> real): real { win.k * Sum(Times(f, win.w), win.a, win.b) }

  lemma ColumnsFactor(f: (int, int) -> real, v: Window, w: Window, p: int -> real, s: real)
    requires forall j :: p(j) == Average(v, Column(f, j))
    requires s == Sum(ColumnSums(Term(f, v.w, w.w), v.a, v.b), w.a, w.b)
    ensures Sum(Times(p, w.w), w.a, w.b) == v.k * s
  {
    var g := ColumnSums(Term(f, v.w, w.w), v.a, v.b);
    forall j ensures Times(p, w.w)(j) == Scaled(v.k, g)(j) {
      InnerColumn(f, v.w, w.w, v.a, v.b, v.k, j);
    }
    SumCongruent(Times(p, w.w), Scaled(v.k, g), w.a, w.b);
    SumScaled(g, v.k, w.a, w.b);
  }

  lemma RowsFactor(f: (int, int) -> real, v: Window, w: Window, q: int -> real, s: real)
    requires forall i :: q(i) == Average(w, Row(f, i))
    requires s == Sum(RowSums(Term(f, v.w, w.w), w.a, w.b), v.a, v.b)
    ensures Sum(Times(q, v.w), v.a, v.b) == w.k * s
  {
    var g := RowSums(Term(f, v.w, w.w), w.a, w.b);
    forall i ensures Times(q, v.w)(i) == Scaled(w.k, g)(i) {
      InnerRow(f, v.w, w.w, w.a, w.b, w.k, i);
    }
    SumCongruent(Times(q, v.w), Scaled(w.k, g), v.a, v.b);
    SumScaled(g, w.k, v.a, v.b);
  }

  lemma Commute(k: real, l: real, s: real, x: real, y: real)
    requires x == k * s && y == l * s
    ensures l * x == k * y
  {
  }

  /** Averaging by v and then by w, or the other way round. */
  lemma AveragesCommute(f: (int, int) -> real, v: Window, w: Window, p: int -> real, q: int -> real)
    requires forall j :: p(j) == Average(v, Column(f, j))
    requires forall i :: q(i) == Average(w, Row(f, i))
    ensures Average(w, p) == Average(v, q)
  {
    var term := Term(f, v.w, w.w);
    SumSwap(term, v.a, v.b, w.a, w.b);
    var s := Sum(ColumnSums(term, v.a, v.b), w.a, w.b);
    ColumnsFactor(f, v, w, p, s);
    RowsFactor(f, v, w, q, s);
    Commute(v.k, w.k, s, Sum(Times(p, w.w), w.a, w.b), Sum(Times(q, v.w), v.a, v.b));
  }

  function WindowOf(axis: Axis, y: nat): Window
    requires axis.Valid() && axis.Total(y) != 0.0
  {
    Window(axis.Weights(y), axis.Start(y), axis.End(y), 1.0 / axis.Total(y))
  }

  lemma ValueIsWindowAverage(axis: Axis, y: nat, f: int -> real)
    requires axis.Valid() && axis.Total(y) != 0.0
    ensures axis.Value(f, y) == Average(WindowOf(axis, y), f)
  {
  }

  /** For each source column, its resampled value in target row y. */
  function ColumnValues(rows: Axis, f: (int, int) -> real, y: nat): int -> real
    requires rows.Valid() && rows.Total(y) != 0.0
  {
    sx => rows.Value(Column(f, sx), y)
  }

  /** For each source row, its resampled value in target column x. */
  function RowValues(cols: Axis, f: (int, int) -> real, x: nat): int -> real
    requires cols.Valid() && cols.Total(x) != 0.0
  {
    sy => cols.Value(Row(f, sy), x)
  }

  /** The two pass orders compute the same value before rounding. */
  lemma PassOrderDoesNotMatter(rows: Axis, cols: Axis, f: (int, int) -> real, y: nat, x: nat)
    requires rows.Valid() && cols.Valid() && y < rows.m && x < cols.m
    ensures rows.Total(y) > 0.0 && cols.Total(x) > 0.0
    ensures cols.Value(ColumnValues(rows, f, y), x) == rows.Value(RowValues(cols, f, x), y)
  {
    TotalIsPositive(rows, y);
    TotalIsPositive(cols, x);
    var p, q := ColumnValues(rows, f, y), RowValues(cols, f, x);
    forall j ensures p(j) == Average(WindowOf(rows, y), Column(f, j)) {
      ValueIsWindowAverage(rows, y, Column(f, j));
    }
    forall i ensures q(i) == Average(WindowOf(cols, x), Row(f, i)) {
      ValueIsWindowAverage(cols, x, Row(f, i));
    }
    AveragesCommute(f, WindowOf(rows, y), WindowOf(cols, x), p, q);
    ValueIsWindowAverage(cols, x, p);
    ValueIsWindowAverage(rows, y, q);
  }

  /** Values that agree on the axis are resampled alike. */
  lemma ValueCongruent(axis: Axis, f: int -> real, g: int -> real, y: nat)
    requires axis.Valid() && y < axis.m && forall s | 0 <= s < axis.n :: f(s) == g(s)
    ensures axis.Total(y) > 0.0 && axis.Value(f, y) == axis.Value(g, y)
  {
    TotalIsPositive(axis, y);
    WindowInBounds(axis, y);
    SumCongruent(Times(f, axis.Weights(y)), Times(g, axis.Weights(y)), axis.Start(y), axis.End(y));
  }
}
