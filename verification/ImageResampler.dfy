/** Two-pass resampling of four-channel images, with reals for the floats of the program. */
module ImageResampler {
  import opened ResampleKernel

  type Byte = x: nat | x < 256

  /** A decoded image holds 8-bit samples, or 16-bit ones when it is deep. */
  datatype Decoded = Decoded(width: nat, height: nat, deep: bool, samples: seq<nat>) {
    predicate Valid() {
      width > 0 && height > 0 && |samples| == height * width * 4
      && forall p | 0 <= p < |samples| :: samples[p] <= if deep then 65535 else 255
    }

    function Values(): (v: seq<real>)
      ensures |v| == |samples|
      ensures forall p | 0 <= p < |v| :: v[p] == if deep then samples[p] as real / 257.0 else samples[p] as real
    {
      seq(|samples|, p requires 0 <= p < |samples| => if deep then samples[p] as real / 257.0 else samples[p] as real)
    }
  }

  // ---------- Sample positions ----------

  function At(w: nat, y: nat, x: nat, c: nat): nat { (y * w + x) * 4 + c }

  function ChannelOf(p: nat): nat { p % 4 }

  function ColumnOf(w: nat, p: nat): nat
    requires w > 0
  {
    p / 4 % w
  }

  function RowOf(w: nat, p: nat): nat
    requires w > 0
  {
    p / 4 / w
  }

  lemma AtLeastOnce(a: nat, w: nat)
    requires a >= 1
    ensures a * w >= w
  {
  }

  lemma UniqueQuotient(q: nat, r: nat, q': nat, r': nat, w: nat)
    requires q * w + r == q' * w + r' && r < w && r' < w
    ensures q == q' && r == r'
  {
    if q < q' {
      AtLeastOnce(q' - q, w);
    } else if q' < q {
      AtLeastOnce(q - q', w);
    }
  }

  lemma DivMod(q: nat, w: nat, r: nat)
    requires r < w
    ensures (q * w + r) / w == q && (q * w + r) % w == r
  {
    var p := q * w + r;
    assert p == p / w * w + p % w;
    UniqueQuotient(q, r, p / w, p % w, w);
  }

  lemma PositionAt(w: nat, y: nat, x: nat, c: nat)
    requires x < w && c < 4
    ensures ChannelOf(At(w, y, x, c)) == c && ColumnOf(w, At(w, y, x, c)) == x && RowOf(w, At(w, y, x, c)) == y
  {
    assert At(w, y, x, c) / 4 == y * w + x;
    DivMod(y, w, x);
  }

  lemma AtPosition(w: nat, p: nat)
    requires w > 0
    ensures ChannelOf(p) < 4 && ColumnOf(w, p) < w && At(w, RowOf(w, p), ColumnOf(w, p), ChannelOf(p)) == p
  {
    var q := p / 4;
    assert q / w * w + q % w == q;
  }

  lemma RowsBefore(y: nat, h: nat, w: nat)
    requires y < h
    ensures y * w + w <= h * w
  {
    AtLeastOnce(h - y, w);
    assert h * w == y * w + (h - y) * w;
  }

  lemma AtInBounds(w: nat, h: nat, y: nat, x: nat, c: nat)
    requires x < w && c < 4 && y < h
    ensures At(w, y, x, c) < h * w * 4
  {
    RowsBefore(y, h, w);
  }

  lemma RowInBounds(w: nat, h: nat, p: nat)
    requires w > 0 && p < h * w * 4
    ensures RowOf(w, p) < h
  {
    AtPosition(w, p);
    if RowOf(w, p) > h {
      AtLeastOnce(RowOf(w, p) - h, w);
    }
  }

  /** One channel of a sample list as a plane; outside it is zero. */
  function Plane(values: seq<real>, w: nat, c: nat): (int, int) -> real {
    (y, x) => if 0 <= y && 0 <= x < w && At(w, y, x, c) < |values| then values[At(w, y, x, c)] else 0.0
  }

  // ---------- What the passes compute ----------

  /** The vertical pass: each column of a w-wide image resampled along `rows`. */
  function VerticalValue(values: seq<real>, w: nat, rows: Axis): int -> real
    requires w > 0 && rows.Valid()
  {
    p =>
      if p >= 0 && RowOf(w, p) < rows.m then
        TotalIsPositive(rows, RowOf(w, p));
        rows.Value(Column(Plane(values, w, ChannelOf(p)), ColumnOf(w, p)), RowOf(w, p))
      else 0.0
  }

  /** The horizontal pass: each row resampled along `cols`, giving a cols.m-wide image. */
  function HorizontalValue(values: seq<real>, cols: Axis): int -> real
    requires cols.Valid()
  {
    p =>
      if p >= 0 then
        AtPosition(cols.m, p);
        TotalIsPositive(cols, ColumnOf(cols.m, p));
        cols.Value(Row(Plane(values, cols.n, ChannelOf(p)), RowOf(cols.m, p)), ColumnOf(cols.m, p))
      else 0.0
  }

  /** Half away from zero. */
  function RoundAway(v: real): int { if v >= 0.0 then (v + 0.5).Floor else -((-v + 0.5).Floor) }

  function ToByte(v: real): Byte { Clamp(RoundAway(v), 0, 255) }

  function Bytes(f: int -> real): int -> Byte { p => ToByte(f(p)) }

  // ---------- Filling an output ----------

  /** Positions already written by loops over (outer, inner, channel). */
  predicate Before(rowsOuter: bool, w: nat, p: nat, o: nat, i: nat, c: nat)
    requires w > 0
  {
    var outer := if rowsOuter then RowOf(w, p) else ColumnOf(w, p);
    var inner := if rowsOuter then ColumnOf(w, p) else RowOf(w, p);
    outer < o || (outer == o && (inner < i || (inner == i && ChannelOf(p) < c)))
  }

  ghost predicate Filled<T>(out: seq<T>, spec: int -> T, rowsOuter: bool, w: nat, o: nat, i: nat, c: nat)
    requires w > 0
  {
    forall p | 0 <= p < |out| && Before(rowsOuter, w, p, o, i, c) :: out[p] == spec(p)
  }

  lemma FilledStep<T>(out: seq<T>, spec: int -> T, rowsOuter: bool, w: nat, h: nat, y: nat, x: nat, c: nat, v: T)
    requires y < h && x < w && c < 4 && |out| == h * w * 4 && v == spec(At(w, y, x, c))
    requires Filled(out, spec, rowsOuter, w, if rowsOuter then y else x, if rowsOuter then x else y, c)
    ensures At(w, y, x, c) < |out|
    ensures Filled(out[At(w, y, x, c) := v], spec, rowsOuter, w,
                   if rowsOuter then y else x, if rowsOuter then x else y, c + 1)
  {
    AtInBounds(w, h, y, x, c);
    var q, o, i := At(w, y, x, c), if rowsOuter then y else x, if rowsOuter then x else y;
    forall p | 0 <= p < |out| && Before(rowsOuter, w, p, o, i, c + 1) ensures out[q := v][p] == spec(p) {
      if p != q && !Before(rowsOuter, w, p, o, i, c) {
        AtPosition(w, p);
      }
    }
  }

  lemma FilledNext<T>(out: seq<T>, spec: int -> T, rowsOuter: bool, w: nat, h: nat, o: nat, i: nat)
    requires w > 0 && |out| == h * w * 4
    ensures Filled(out, spec, rowsOuter, w, o, i, 4) ==> Filled(out, spec, rowsOuter, w, o, i + 1, 0)
    ensures Filled(out, spec, rowsOuter, w, o, if rowsOuter then w else h, 0) ==>
              Filled(out, spec, rowsOuter, w, o + 1, 0, 0)
    ensures Filled(out, spec, rowsOuter, w, if rowsOuter then h else w, 0, 0) ==>
              forall p | 0 <= p < |out| :: out[p] == spec(p)
  {
    forall p | 0 <= p < |out| ensures ChannelOf(p) < 4 && ColumnOf(w, p) < w && RowOf(w, p) < h {
      AtPosition(w, p);
      RowInBounds(w, h, p);
    }
  }

  // ---------- The loops ----------

  method WindowTotal(axis: Axis, y: nat) returns (start: nat, end: nat, total: real)
    requires axis.Valid() && y < axis.m
    ensures start == axis.Start(y) && end == axis.End(y) && end <= axis.n && total == axis.Total(y) > 0.0
  {
    WindowInBounds(axis, y);
    TotalIsPositive(axis, y);
    start, end := axis.Start(y), axis.End(y);
    total := 0.0;
    for s := start to end
      invariant total == Sum(axis.Weights(y), start, s)
    {
      total := total + axis.W(y, s);
    }
  }

  lemma ColumnTerm(values: seq<real>, w: nat, rows: Axis, y: nat, x: nat, c: nat, s: nat)
    requires rows.Valid() && x < w && c < 4 && |values| == rows.n * w * 4 && s < rows.n
    ensures At(w, s, x, c) < |values|
    ensures Times(Column(Plane(values, w, c), x), rows.Weights(y))(s) == values[At(w, s, x, c)] * rows.W(y, s)
  {
    AtInBounds(w, rows.n, s, x, c);
  }

  lemma RowTerm(values: seq<real>, h: nat, cols: Axis, y: nat, x: nat, c: nat, s: nat)
    requires cols.Valid() && y < h && c < 4 && |values| == h * cols.n * 4 && s < cols.n
    ensures At(cols.n, y, s, c) < |values|
    ensures Times(Row(Plane(values, cols.n, c), y), cols.Weights(x))(s) == values[At(cols.n, y, s, c)] * cols.W(x, s)
  {
    AtInBounds(cols.n, h, y, s, c);
  }

  method ColumnSum(values: seq<real>, w: nat, rows: Axis, y: nat, x: nat, c: nat, start: nat, end: nat)
    returns (sum: real)
    requires rows.Valid() && x < w && c < 4 && |values| == rows.n * w * 4 && start <= end <= rows.n
    ensures sum == Sum(Times(Column(Plane(values, w, c), x), rows.Weights(y)), start, end)
  {
    ghost var terms := Times(Column(Plane(values, w, c), x), rows.Weights(y));
    sum := 0.0;
    for s := start to end
      invariant sum == Sum(terms, start, s)
    {
      ColumnTerm(values, w, rows, y, x, c, s);
      sum := sum + values[At(w, s, x, c)] * rows.W(y, s);
    }
  }

  method RowSum(values: seq<real>, h: nat, cols: Axis, y: nat, x: nat, c: nat, start: nat, end: nat) returns (sum: real)
    requires cols.Valid() && y < h && c < 4 && |values| == h * cols.n * 4 && start <= end <= cols.n
    ensures sum == Sum(Times(Row(Plane(values, cols.n, c), y), cols.Weights(x)), start, end)
  {
    ghost var terms := Times(Row(Plane(values, cols.n, c), y), cols.Weights(x));
    sum := 0.0;
    for s := start to end
      invariant sum == Sum(terms, start, s)
    {
      RowTerm(values, h, cols, y, x, c, s);
      sum := sum + values[At(cols.n, y, s, c)] * cols.W(x, s);
    }
  }

  method Vertical(values: seq<real>, w: nat, rows: Axis, output: array<real>)
    requires rows.Valid() && w > 0 && |values| == rows.n * w * 4 && output.Length == rows.m * w * 4
    modifies output
    ensures forall p | 0 <= p < output.Length :: output[p] == VerticalValue(values, w, rows)(p)
  {
    ghost var spec := VerticalValue(values, w, rows);
    for y := 0 to rows.m
      invariant Filled(output[..], spec, true, w, y, 0, 0)
    {
      var start, end, total := WindowTotal(rows, y);
      for x := 0 to w
        invariant Filled(output[..], spec, true, w, y, x, 0)
      {
        for c := 0 to 4
          invariant Filled(output[..], spec, true, w, y, x, c)
        {
          var sum := ColumnSum(values, w, rows, y, x, c, start, end);
          PositionAt(w, y, x, c);
          FilledStep(output[..], spec, true, w, rows.m, y, x, c, sum / total);
          output[At(w, y, x, c)] := sum / total;
        }
        FilledNext(output[..], spec, true, w, rows.m, y, x);
      }
      FilledNext(output[..], spec, true, w, rows.m, y, 0);
    }
    FilledNext(output[..], spec, true, w, rows.m, 0, 0);
  }

  method HorizontalFirst(values: seq<real>, h: nat, cols: Axis, output: array<real>)
    requires cols.Valid() && |values| == h * cols.n * 4 && output.Length == h * cols.m * 4
    modifies output
    ensures forall p | 0 <= p < output.Length :: output[p] == HorizontalValue(values, cols)(p)
  {
    ghost var spec := HorizontalValue(values, cols);
    for x := 0 to cols.m
      invariant Filled(output[..], spec, false, cols.m, x, 0, 0)
    {
      var start, end, total := WindowTotal(cols, x);
      for y := 0 to h
        invariant Filled(output[..], spec, false, cols.m, x, y, 0)
      {
        for c := 0 to 4
          invariant Filled(output[..], spec, false, cols.m, x, y, c)
        {
          var sum := RowSum(values, h, cols, y, x, c, start, end);
          PositionAt(cols.m, y, x, c);
          FilledStep(output[..], spec, false, cols.m, h, y, x, c, sum / total);
          output[At(cols.m, y, x, c)] := sum / total;
        }
        FilledNext(output[..], spec, false, cols.m, h, x, y);
      }
      FilledNext(output[..], spec, false, cols.m, h, x, 0);
    }
    FilledNext(output[..], spec, false, cols.m, h, 0, 0);
  }

  method Horizontal(source: array<real>, h: nat, cols: Axis, output: array<Byte>)
    requires cols.Valid() && source.Length == h * cols.n * 4 && output.Length == h * cols.m * 4
    modifies output
    ensures forall p | 0 <= p < output.Length :: output[p] == ToByte(HorizontalValue(source[..], cols)(p))
  {
    ghost var spec := Bytes(HorizontalValue(source[..], cols));
    for x := 0 to cols.m
      invariant Filled(output[..], spec, false, cols.m, x, 0, 0)
    {
      var start, end, total := WindowTotal(cols, x);
      for y := 0 to h
        invariant Filled(output[..], spec, false, cols.m, x, y, 0)
      {
        for c := 0 to 4
          invariant Filled(output[..], spec, false, cols.m, x, y, c)
        {
          var sum := RowSum(source[..], h, cols, y, x, c, start, end);
          PositionAt(cols.m, y, x, c);
          FilledStep(output[..], spec, false, cols.m, h, y, x, c, ToByte(sum / total));
          output[At(cols.m, y, x, c)] := ToByte(sum / total);
        }
        FilledNext(output[..], spec, false, cols.m, h, x, y);
      }
      FilledNext(output[..], spec, false, cols.m, h, x, 0);
    }
    FilledNext(output[..], spec, false, cols.m, h, 0, 0);
  }

  method VerticalLast(source: array<real>, w: nat, rows: Axis, output: array<Byte>)
    requires rows.Valid() && w > 0 && source.Length == rows.n * w * 4 && output.Length == rows.m * w * 4
    modifies output
    ensures forall p | 0 <= p < output.Length :: output[p] == ToByte(VerticalValue(source[..], w, rows)(p))
  {
    ghost var spec := Bytes(VerticalValue(source[..], w, rows));
    for y := 0 to rows.m
      invariant Filled(output[..], spec, true, w, y, 0, 0)
    {
      var start, end, total := WindowTotal(rows, y);
      for x := 0 to w
        invariant Filled(output[..], spec, true, w, y, x, 0)
      {
        for c := 0 to 4
          invariant Filled(output[..], spec, true, w, y, x, c)
        {
          var sum := ColumnSum(source[..], w, rows, y, x, c, start, end);
          PositionAt(w, y, x, c);
          FilledStep(output[..], spec, true, w, rows.m, y, x, c, ToByte(sum / total));
          output[At(w, y, x, c)] := ToByte(sum / total);
        }
        FilledNext(output[..], spec, true, w, rows.m, y, x);
      }
      FilledNext(output[..], spec, true, w, rows.m, y, 0);
    }
    FilledNext(output[..], spec, true, w, rows.m, 0, 0);
  }

  // ---------- The whole resize ----------

  /** The exact value of one output sample: vertical pass, then horizontal pass. */
  function Exact(values: seq<real>, rows: Axis, cols: Axis): int -> real
    requires rows.Valid() && cols.Valid()
  {
    p =>
      if p >= 0 && RowOf(cols.m, p) < rows.m then
        AtPosition(cols.m, p);
        TotalIsPositive(rows, RowOf(cols.m, p));
        TotalIsPositive(cols, ColumnOf(cols.m, p));
        cols.Value(ColumnValues(rows, Plane(values, cols.n, ChannelOf(p)), RowOf(cols.m, p)), ColumnOf(cols.m, p))
      else 0.0
  }

  lemma VerticalThenHorizontal(values: seq<real>, between: seq<real>, rows: Axis, cols: Axis, p: nat)
    requires rows.Valid() && cols.Valid() && p < rows.m * cols.m * 4
    requires |values| == rows.n * cols.n * 4 && |between| == rows.m * cols.n * 4
    requires forall q | 0 <= q < |between| :: between[q] == VerticalValue(values, cols.n, rows)(q)
    ensures HorizontalValue(between, cols)(p) == Exact(values, rows, cols)(p)
  {
    AtPosition(cols.m, p);
    RowInBounds(cols.m, rows.m, p);
    var y, x, c := RowOf(cols.m, p), ColumnOf(cols.m, p), ChannelOf(p);
    TotalIsPositive(rows, y);
    var f, g := Row(Plane(between, cols.n, c), y), ColumnValues(rows, Plane(values, cols.n, c), y);
    forall sx | 0 <= sx < cols.n ensures f(sx) == g(sx) {
      AtInBounds(cols.n, rows.m, y, sx, c);
      PositionAt(cols.n, y, sx, c);
    }
    ValueCongruent(cols, f, g, x);
  }

  lemma HorizontalThenVertical(values: seq<real>, between: seq<real>, rows: Axis, cols: Axis, p: nat)
    requires rows.Valid() && cols.Valid() && p < rows.m * cols.m * 4
    requires |values| == rows.n * cols.n * 4 && |between| == rows.n * cols.m * 4
    requires forall q | 0 <= q < |between| :: between[q] == HorizontalValue(values, cols)(q)
    ensures VerticalValue(between, cols.m, rows)(p) == Exact(values, rows, cols)(p)
  {
    AtPosition(cols.m, p);
    RowInBounds(cols.m, rows.m, p);
    var y, x, c := RowOf(cols.m, p), ColumnOf(cols.m, p), ChannelOf(p);
    var plane := Plane(values, cols.n, c);
    PassOrderDoesNotMatter(rows, cols, plane, y, x);
    var f, g := Column(Plane(between, cols.m, c), x), RowValues(cols, plane, x);
    forall sy | 0 <= sy < rows.n ensures f(sy) == g(sy) {
      AtInBounds(cols.m, rows.n, sy, x, c);
      PositionAt(cols.m, sy, x, c);
    }
    ValueCongruent(rows, f, g, y);
  }

  /** Sixteen-bit samples rounded to eight bits. */
  method ToRgba8(source: Decoded) returns (pixels: array<Byte>)
    requires source.Valid()
    ensures fresh(pixels) && pixels.Length == |source.samples|
    ensures forall p | 0 <= p < pixels.Length :: pixels[p] == ToByte(source.Values()[p])
  {
    ghost var values := source.Values();
    pixels := new Byte[|source.samples|];
    for p := 0 to pixels.Length
      invariant forall q | 0 <= q < p :: pixels[q] == ToByte(values[q])
    {
      if source.deep {
        NearestByte(source.samples[p]);
        pixels[p] := (source.samples[p] + 128) / 257;
      } else {
        WholeByte(source.samples[p]);
        pixels[p] := source.samples[p];
      }
    }
  }

  /** Adding 128 and dividing by 257 rounds to the nearest byte. */
  lemma NearestByte(h: nat)
    requires h <= 65535
    ensures ToByte(h as real / 257.0) == (h + 128) / 257
  {
    var b := (h + 128) / 257;
    assert 257 * b <= h + 128 < 257 * b + 257;
    var v := h as real / 257.0;
    assert v * 257.0 == h as real;
    assert (b as real - 0.5) * 257.0 < h as real < (b as real + 0.5) * 257.0;
    assert b as real <= v + 0.5 < b as real + 1.0;
  }

  lemma WholeByte(b: nat)
    requires b <= 255
    ensures ToByte(b as real) == b
  {
  }

  /** Resizing computes the rounded exact value of every sample, whichever pass runs first. */
  method Resize(source: Decoded, width: nat, height: nat) returns (pixels: array<Byte>)
    requires source.Valid() && width > 0 && height > 0
    ensures fresh(pixels) && pixels.Length == height * width * 4
    ensures forall p | 0 <= p < pixels.Length ::
              pixels[p] == ToByte(Exact(source.Values(), Axis(source.height, height), Axis(source.width, width))(p))
  {
    var values, rows, cols := source.Values(), Axis(source.height, height), Axis(source.width, width);
    if width == source.width && height == source.height {
      pixels := ToRgba8(source);
      forall p | 0 <= p < pixels.Length ensures pixels[p] == ToByte(Exact(values, rows, cols)(p)) {
        SameSizeIsExact(values, rows, cols, p);
      }
      return;
    }
    pixels := new Byte[height * width * 4];
    if source.width * height <= width * source.height {
      var between := new real[height * source.width * 4];
      Vertical(values, source.width, rows, between);
      Horizontal(between, height, cols, pixels);
      forall p | 0 <= p < pixels.Length ensures pixels[p] == ToByte(Exact(values, rows, cols)(p)) {
        VerticalThenHorizontal(values, between[..], rows, cols, p);
      }
    } else {
      var between := new real[source.height * width * 4];
      HorizontalFirst(values, source.height, cols, between);
      VerticalLast(between, width, rows, pixels);
      forall p | 0 <= p < pixels.Length ensures pixels[p] == ToByte(Exact(values, rows, cols)(p)) {
        HorizontalThenVertical(values, between[..], rows, cols, p);
      }
    }
  }

  /** The same-size shortcut gives what the two passes would compute. */
  lemma SameSizeIsExact(values: seq<real>, rows: Axis, cols: Axis, p: nat)
    requires rows.Valid() && cols.Valid() && rows.n == rows.m && cols.n == cols.m
    requires p < |values| == rows.n * cols.n * 4
    ensures Exact(values, rows, cols)(p) == values[p]
  {
    AtPosition(cols.m, p);
    RowInBounds(cols.m, rows.m, p);
    var y, x, c := RowOf(cols.m, p), ColumnOf(cols.m, p), ChannelOf(p);
    var plane := Plane(values, cols.n, c);
    UnchangedAxisIsCopied(rows, y, Column(plane, x));
    UnchangedAxisIsCopied(cols, x, ColumnValues(rows, plane, y));
  }

  /** Every output sample lies between the smallest and largest source sample of its channel. */
  lemma ExactIsAverage(values: seq<real>, rows: Axis, cols: Axis, p: nat, lo: real, hi: real)
    requires rows.Valid() && cols.Valid() && p < rows.m * cols.m * 4 && |values| == rows.n * cols.n * 4
    requires forall q | 0 <= q < |values| && ChannelOf(q) == ChannelOf(p) :: lo <= values[q] <= hi
    ensures lo <= Exact(values, rows, cols)(p) <= hi
  {
    AtPosition(cols.m, p);
    RowInBounds(cols.m, rows.m, p);
    var y, x, c := RowOf(cols.m, p), ColumnOf(cols.m, p), ChannelOf(p);
    var plane := Plane(values, cols.n, c);
    TotalIsPositive(rows, y);
    var g := ColumnValues(rows, plane, y);
    forall sx | 0 <= sx < cols.n ensures lo <= g(sx) <= hi {
      forall sy | 0 <= sy < rows.n ensures lo <= Column(plane, sx)(sy) <= hi {
        AtInBounds(cols.n, rows.n, sy, sx, c);
        PositionAt(cols.n, sy, sx, c);
      }
      ValueIsAverage(rows, y, Column(plane, sx), lo, hi);
    }
    ValueIsAverage(cols, x, g, lo, hi);
  }

  /** So the final clamp never changes anything. */
  lemma ClampNeverBites(source: Decoded, width: nat, height: nat, p: nat)
    requires source.Valid() && width > 0 && height > 0 && p < height * width * 4
    ensures var v := Exact(source.Values(), Axis(source.height, height), Axis(source.width, width))(p);
            0.0 <= v <= 255.0 && ToByte(v) == RoundAway(v)
  {
    var values := source.Values();
    forall q | 0 <= q < |values| ensures 0.0 <= values[q] <= 255.0 {
      var s := source.samples[q] as real;
      assert s / 257.0 <= 255.0 by { assert s <= 255.0 * 257.0; }
    }
    ExactIsAverage(values, Axis(source.height, height), Axis(source.width, width), p, 0.0, 255.0);
  }

  /** A channel of one value keeps that value at every size. */
  lemma ConstantChannelStaysConstant(values: seq<real>, rows: Axis, cols: Axis, p: nat, v: real)
    requires rows.Valid() && cols.Valid() && p < rows.m * cols.m * 4 && |values| == rows.n * cols.n * 4
    requires forall q | 0 <= q < |values| && ChannelOf(q) == ChannelOf(p) :: values[q] == v
    ensures Exact(values, rows, cols)(p) == v
  {
    ExactIsAverage(values, rows, cols, p, v, v);
  }
}
