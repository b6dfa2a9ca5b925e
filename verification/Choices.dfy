/** Choosing an option by its token log-probabilities, column by column. */
module Choices {
  import opened Options

  function Sum(s: seq<real>): real {
    if s == [] then 0.0 else Sum(s[..|s| - 1]) + s[|s| - 1]
  }

  function Mean(s: seq<real>): real
    requires s != []
  {
    Sum(s) / (|s| as real)
  }

  lemma {:induction false} SumAppend(s: seq<real>, t: seq<real>)
    ensures Sum(s + t) == Sum(s) + Sum(t)
    decreases |t|
  {
    if t == [] {
      assert s + t == s;
    } else {
      assert (s + t)[..|s + t| - 1] == s + t[..|t| - 1];
      SumAppend(s, t[..|t| - 1]);
    }
  }

  /** The average: as often as there are numbers, it sums to what they sum to, and it lies between any bounds of them. */
  lemma {:induction false} MeanIsAverage(s: seq<real>, low: real, high: real)
    requires s != [] && forall x :: x in s ==> low <= x <= high
    ensures Mean(s) * (|s| as real) == Sum(s)
    ensures low <= Mean(s) <= high
  {
    SumBetween(s, low, high);
    QuotientBetween(Sum(s), |s| as real, low, high);
  }

  lemma {:induction false} SumBetween(s: seq<real>, low: real, high: real)
    requires forall x :: x in s ==> low <= x <= high
    ensures low * (|s| as real) <= Sum(s) <= high * (|s| as real)
  {
    if s != [] {
      var (front, x) := (s[..|s| - 1], s[|s| - 1]);
      assert s == front + [x] && x in s;
      assert forall y :: y in front ==> y in s;
      SumBetween(front, low, high);
      assert low <= x <= high && |s| as real == |front| as real + 1.0;
      Distribute(low, |front| as real);
      Distribute(high, |front| as real);
    }
  }

  lemma Distribute(x: real, n: real)
    ensures x * (n + 1.0) == x * n + x
  {}

  lemma QuotientBetween(sum: real, n: real, low: real, high: real)
    requires n > 0.0 && low * n <= sum <= high * n
    ensures low <= sum / n <= high && sum / n * n == sum
  {
    var mean := sum / n;
    assert mean * n == sum;
    CancelFactor(low, mean, n);
    CancelFactor(mean, high, n);
  }

  lemma CancelFactor(x: real, y: real, n: real)
    requires n > 0.0 && x * n <= y * n
    ensures x <= y
  {
    assert (y - x) * n >= 0.0;
  }

  /** A float: `NaN` is what the average of no numbers is, and equals nothing. */
  datatype Number = NaN | Num(value: real)

  predicate SameNumber(x: Number, y: Number) { x.Num? && x == y }

  function ValueOf(x: Number): real { if x.Num? then x.value else 0.0 }

  function Average(s: seq<real>): Number {
    if s == [] then NaN else Num(Mean(s))
  }

  /** The entry of an option in a column: a log-probability, or their average as padding. */
  function Entry(option: seq<real>, j: nat): Number {
    if j < |option| then Num(option[j]) else Average(option)
  }

  /** Options whose padded rows hold numbers only: none is empty, unless all are. */
  predicate Comparable(options: seq<seq<real>>, width: nat) {
    forall o :: o in options ==> |o| <= width && (o == [] ==> width == 0)
  }

  /** The row of an option: its log-probabilities, padded with their average. */
  function Row(option: seq<real>, width: nat): (row: seq<real>)
    requires |option| <= width && (option == [] ==> width == 0)
    ensures |row| == width
  {
    if option == [] then [] else option + seq(width - |option|, _ => Mean(option))
  }

  function Rows(options: seq<seq<real>>, width: nat): (rows: seq<seq<real>>)
    requires Comparable(options, width)
    ensures |rows| == |options| && Rectangular(rows, width)
  {
    seq(|options|, i requires 0 <= i < |options| => Row(options[i], width))
  }

  method BuildLogprobMatrix(options: seq<seq<real>>, width: nat) returns (matrix: array2<Number>)
    requires forall i :: 0 <= i < |options| ==> |options[i]| <= width
    ensures fresh(matrix) && matrix.Length0 == |options| && matrix.Length1 == width
    ensures forall i, j :: 0 <= i < |options| && 0 <= j < width ==> matrix[i, j] == Entry(options[i], j)
  {
    matrix := new Number[|options|, width]((_, _) => Num(0.0));
    for i := 0 to |options|
      invariant forall r, j :: 0 <= r < i && 0 <= j < width ==> matrix[r, j] == Entry(options[r], j)
    {
      var average := Average(options[i]);
      for j := 0 to |options[i]|
        invariant forall r, k :: 0 <= r < i && 0 <= k < width ==> matrix[r, k] == Entry(options[r], k)
        invariant forall k :: 0 <= k < j ==> matrix[i, k] == Entry(options[i], k)
      {
        matrix[i, j] := Num(options[i][j]);
      }
      for j := |options[i]| to width
        invariant forall r, k :: 0 <= r < i && 0 <= k < width ==> matrix[r, k] == Entry(options[r], k)
        invariant forall k :: 0 <= k < j ==> matrix[i, k] == Entry(options[i], k)
      {
        matrix[i, j] := average;
      }
    }
  }

  // ---------- What the selection is for ----------

  /** The rows agree before column `j`. */
  predicate AgreeBefore(x: seq<real>, y: seq<real>, j: nat)
    requires j <= |x| && j <= |y|
  {
    forall k :: 0 <= k < j ==> x[k] == y[k]
  }

  /** `x` is lexicographically greater than `y`: greater at the first column where they differ. */
  ghost predicate Above(x: seq<real>, y: seq<real>)
    requires |x| == |y|
  {
    exists j: nat :: j < |x| && AgreeBefore(x, y, j) && x[j] > y[j]
  }

  predicate Rectangular<T(==)>(m: seq<seq<T>>, width: nat) {
    forall row :: row in m ==> |row| == width
  }

  /** No row is above row `i`. */
  ghost predicate Greatest(m: seq<seq<real>>, width: nat, i: nat)
    requires Rectangular(m, width) && i < |m|
  {
    forall r :: 0 <= r < |m| ==> !Above(m[r], m[i])
  }

  /** The best rows looking only at the columns before `j`: those that no row beats there. */
  predicate BestBefore(m: seq<seq<real>>, width: nat, i: nat, j: nat)
    requires Rectangular(m, width) && i < |m| && j <= width
  {
    forall r, k :: 0 <= r < |m| && 0 <= k < j && AgreeBefore(m[r], m[i], k) ==> m[r][k] <= m[i][k]
  }

  lemma BestIsGreatest(m: seq<seq<real>>, width: nat, i: nat)
    requires Rectangular(m, width) && i < |m|
    ensures Greatest(m, width, i) <==> BestBefore(m, width, i, width)
  {
    if !BestBefore(m, width, i, width) {
      var r, k :| 0 <= r < |m| && 0 <= k < width && AgreeBefore(m[r], m[i], k) && !(m[r][k] <= m[i][k]);
      assert Above(m[r], m[i]);
    }
  }

  /** Increasing row numbers. */
  predicate RowNumbers(s: seq<nat>, n: nat) {
    && (forall a :: 0 <= a < |s| ==> s[a] < n)
    && (forall a, b :: 0 <= a < b < |s| ==> s[a] < s[b])
  }

  /** Exactly the best rows so far remain. */
  predicate Kept(m: seq<seq<real>>, width: nat, remaining: seq<nat>, j: nat)
    requires Rectangular(m, width) && j <= width
  {
    && RowNumbers(remaining, |m|)
    && (forall i: nat :: i < |m| ==> (i in remaining <==> BestBefore(m, width, i, j)))
  }

  /** Row `only` is the one best row. */
  predicate OnlyBest(m: seq<seq<real>>, width: nat, only: nat, j: nat)
    requires Rectangular(m, width) && j <= width
  {
    only < |m| && forall i: nat :: i < |m| ==> (BestBefore(m, width, i, j) <==> i == only)
  }

  /** Two rows that are both best before `j` agree there. */
  lemma {:induction false} BestAgree(m: seq<seq<real>>, width: nat, a: nat, b: nat, j: nat)
    requires Rectangular(m, width) && a < |m| && b < |m| && j <= width
    requires BestBefore(m, width, a, j) && BestBefore(m, width, b, j)
    ensures AgreeBefore(m[a], m[b], j) && AgreeBefore(m[b], m[a], j)
  {
    if j > 0 {
      BestAgree(m, width, a, b, j - 1);
      assert m[a][j - 1] <= m[b][j - 1] && m[b][j - 1] <= m[a][j - 1];
    }
  }

  /** One column further: the best are the best so far with the greatest entry in this column. */
  lemma BestOneFurther(m: seq<seq<real>>, width: nat, i: nat, j: nat, best: nat)
    requires Rectangular(m, width) && i < |m| && best < |m| && j < width
    requires BestBefore(m, width, best, j)
    requires forall r: nat :: r < |m| && BestBefore(m, width, r, j) ==> m[r][j] <= m[best][j]
    ensures BestBefore(m, width, i, j + 1) <==> BestBefore(m, width, i, j) && m[i][j] == m[best][j]
  {
    if BestBefore(m, width, i, j + 1) {
      BestAgree(m, width, i, best, j);
      assert m[best][j] <= m[i][j];
    }
    if BestBefore(m, width, i, j) && m[i][j] == m[best][j] {
      forall r, k | 0 <= r < |m| && 0 <= k < j + 1 && AgreeBefore(m[r], m[i], k)
        ensures m[r][k] <= m[i][k]
      {
        if k == j {
          AgreeingIsBest(m, width, r, i, j);
        }
      }
    }
  }

  lemma AgreeingIsBest(m: seq<seq<real>>, width: nat, r: nat, i: nat, j: nat)
    requires Rectangular(m, width) && i < |m| && r < |m| && j <= width
    requires BestBefore(m, width, i, j) && AgreeBefore(m[r], m[i], j)
    ensures BestBefore(m, width, r, j)
  {
    forall q, k | 0 <= q < |m| && 0 <= k < j && AgreeBefore(m[q], m[r], k)
      ensures m[q][k] <= m[r][k]
    {
      assert AgreeBefore(m[q], m[i], k);
    }
  }

  /** The greatest entry of a column among the remaining rows, or NaN when one of them is. */
  method ColumnMax(m: seq<seq<Number>>, width: nat, remaining: seq<nat>, j: nat) returns (max: Number)
    requires Rectangular(m, width) && j < width
    requires remaining != [] && RowNumbers(remaining, |m|)
    ensures max.NaN? <==> exists a :: 0 <= a < |remaining| && m[remaining[a]][j].NaN?
    ensures max.Num? ==> exists a :: 0 <= a < |remaining| && m[remaining[a]][j] == max
    ensures max.Num? ==> forall a :: 0 <= a < |remaining| ==> ValueOf(m[remaining[a]][j]) <= max.value
  {
    max := m[remaining[0]][j];
    for k := 1 to |remaining|
      invariant max.NaN? <==> exists a :: 0 <= a < k && m[remaining[a]][j].NaN?
      invariant max.Num? ==> exists a :: 0 <= a < k && m[remaining[a]][j] == max
      invariant max.Num? ==> forall a :: 0 <= a < k ==> ValueOf(m[remaining[a]][j]) <= max.value
    {
      var next := m[remaining[k]][j];
      if max.Num? && (next.NaN? || next.value > max.value) {
        max := next;
      }
    }
  }

  /** The rows among `remaining` whose entry in column `j` equals `value`. */
  method Keep(m: seq<seq<Number>>, width: nat, remaining: seq<nat>, j: nat, value: Number) returns (kept: seq<nat>)
    requires Rectangular(m, width) && j < width && RowNumbers(remaining, |m|)
    ensures RowNumbers(kept, |m|)
    ensures forall i: nat :: i < |m| ==> (i in kept <==> i in remaining && SameNumber(m[i][j], value))
  {
    kept := [];
    for k := 0 to |remaining|
      invariant RowNumbers(kept, |m|) && forall a :: 0 <= a < |kept| ==> kept[a] in remaining[..k]
      invariant forall i: nat :: i < |m| ==> (i in kept <==> i in remaining[..k] && SameNumber(m[i][j], value))
    {
      assert remaining[..k + 1] == remaining[..k] + [remaining[k]];
      assert forall i :: i in remaining[..k] ==> i < remaining[k];
      if SameNumber(m[remaining[k]][j], value) {
        kept := kept + [remaining[k]];
      }
    }
    assert remaining[..|remaining|] == remaining;
  }

  /** A single best row stays the only one. */
  lemma {:induction false} SingleStays(m: seq<seq<real>>, width: nat, only: nat, j: nat)
    requires Rectangular(m, width) && j <= width && OnlyBest(m, width, only, j)
    ensures OnlyBest(m, width, only, width)
    decreases width - j
  {
    if j < width {
      var next := j + 1;
      forall i: nat | i < |m|
        ensures BestBefore(m, width, i, next) <==> i == only
      {
        BestOneFurther(m, width, i, j, only);
      }
      SingleStays(m, width, only, next);
    }
  }

  lemma NextColumnKept(m: seq<seq<real>>, width: nat, remaining: seq<nat>, kept: seq<nat>, j: nat, best: nat)
    requires Rectangular(m, width) && j < width && Kept(m, width, remaining, j) && best in remaining
    requires forall a :: 0 <= a < |remaining| ==> m[remaining[a]][j] <= m[best][j]
    requires RowNumbers(kept, |m|) && forall i: nat :: i < |m| ==> (i in kept <==> i in remaining && m[i][j] == m[best][j])
    ensures Kept(m, width, kept, j + 1) && best in kept
  {
    forall i: nat | i < |m|
      ensures i in kept <==> BestBefore(m, width, i, j + 1)
    {
      BestOneFurther(m, width, i, j, best);
    }
  }

  lemma AllKept(m: seq<seq<real>>, width: nat, remaining: seq<nat>)
    requires Rectangular(m, width) && remaining == seq(|m|, i => i)
    ensures Kept(m, width, remaining, 0)
  {
    forall i: nat | i < |m|
      ensures i in remaining
    {
      assert remaining[i] == i;
    }
  }

  lemma OneKept(m: seq<seq<real>>, width: nat, remaining: seq<nat>, j: nat)
    requires Rectangular(m, width) && j <= width && Kept(m, width, remaining, j) && |remaining| == 1
    ensures Kept(m, width, remaining, width)
  {
    var only := remaining[0];
    assert forall i :: i in remaining <==> i == only;
    SingleStays(m, width, only, j);
  }

  lemma KeptIsGreatest(m: seq<seq<real>>, width: nat, remaining: seq<nat>)
    requires Rectangular(m, width) && Kept(m, width, remaining, width)
    ensures forall i: nat :: i < |m| ==> (i in remaining <==> Greatest(m, width, i))
  {
    forall i: nat | i < |m|
      ensures i in remaining <==> Greatest(m, width, i)
    {
      BestIsGreatest(m, width, i);
    }
  }

  /** No entry is NaN. */
  predicate AllNumbers(m: seq<seq<Number>>) {
    forall i, j :: 0 <= i < |m| && 0 <= j < |m[i]| ==> m[i][j].Num?
  }

  /** A row holds numbers only, or NaN only. */
  predicate Uniform(row: seq<Number>) {
    forall j, k :: 0 <= j < |row| && 0 <= k < |row| ==> row[j].Num? == row[k].Num?
  }

  function Values(m: seq<seq<Number>>, width: nat): (v: seq<seq<real>>)
    requires Rectangular(m, width)
    ensures |v| == |m| && Rectangular(v, width)
  {
    seq(|m|, i requires 0 <= i < |m| => seq(width, j requires 0 <= j < width => ValueOf(m[i][j])))
  }

  /** One turn of the selection over numbers. */
  lemma NextKept(m: seq<seq<Number>>, width: nat, remaining: seq<nat>, kept: seq<nat>, j: nat, max: Number)
    requires Rectangular(m, width) && AllNumbers(m) && j < width && Kept(Values(m, width), width, remaining, j)
    requires exists a :: 0 <= a < |remaining| && m[remaining[a]][j] == max
    requires forall a :: 0 <= a < |remaining| ==> ValueOf(m[remaining[a]][j]) <= ValueOf(max)
    requires RowNumbers(kept, |m|) && forall i: nat :: i < |m| ==> (i in kept <==> i in remaining && SameNumber(m[i][j], max))
    ensures Kept(Values(m, width), width, kept, j + 1) && kept != []
  {
    var v := Values(m, width);
    var a :| 0 <= a < |remaining| && m[remaining[a]][j] == max;
    var best := remaining[a];
    assert best in remaining && v[best][j] == ValueOf(max);
    assert forall i: nat :: i < |m| ==> (SameNumber(m[i][j], max) <==> v[i][j] == v[best][j]);
    assert forall b :: 0 <= b < |remaining| ==> v[remaining[b]][j] == ValueOf(m[remaining[b]][j]);
    NextColumnKept(v, width, remaining, kept, j, best);
  }

  lemma NaNInColumn(m: seq<seq<Number>>, width: nat, j: nat) returns (i: nat)
    requires Rectangular(m, width) && j < width && !AllNumbers(m)
    requires forall i :: 0 <= i < |m| ==> Uniform(m[i])
    ensures i < |m| && m[i][j].NaN?
  {
    var r, k :| 0 <= r < |m| && 0 <= k < |m[r]| && m[r][k].NaN?;
    assert m[r] in m && Uniform(m[r]);
    i := r;
  }

  /**
  `_greedy_selection`: among numbers, the rows that remain are exactly the lexicographically greatest ones, in increasing order.
  With a row of NaN none remains after the first column, and a second column is an error.
  */
  method GreedySelection(m: seq<seq<Number>>, width: nat) returns (remaining: Option<seq<nat>>)
    requires m != [] && Rectangular(m, width) && forall i :: 0 <= i < |m| ==> Uniform(m[i])
    ensures AllNumbers(m) ==>
              && remaining.Some? && remaining.value != [] && RowNumbers(remaining.value, |m|)
              && forall i: nat :: i < |m| ==> (i in remaining.value <==> Greatest(Values(m, width), width, i))
    ensures !AllNumbers(m) ==> remaining == if width == 1 then Some([]) else None
  {
    var rows: seq<nat> := seq(|m|, i => i);
    ghost var v := Values(m, width);
    AllKept(v, width, rows);
    var j := 0;
    while j < width
      invariant j <= width && RowNumbers(rows, |m|)
      invariant AllNumbers(m) ==> rows != [] && Kept(v, width, rows, j)
      invariant !AllNumbers(m) ==> if j == 0 then rows == seq(|m|, i => i) else j == 1 && rows == []
    {
      if rows == [] {
        return None;
      }
      var max := ColumnMax(m, width, rows, j);
      var kept := Keep(m, width, rows, j, max);
      assert kept == [] || kept[0] in kept;
      if AllNumbers(m) {
        NextKept(m, width, rows, kept, j, max);
      } else {
        ghost var i := NaNInColumn(m, width, j);
        assert rows[i] == i;
      }
      rows := kept;
      j := j + 1;
      if |rows| == 1 {
        OneKept(v, width, rows, j);
        j := width;
        break;
      }
    }
    if AllNumbers(m) {
      KeptIsGreatest(v, width, rows);
    }
    return Some(rows);
  }

  /** The rows of a matrix as sequences. */
  function RowsOf(matrix: array2<Number>): (m: seq<seq<Number>>)
    reads matrix
    ensures |m| == matrix.Length0 && Rectangular(m, matrix.Length1)
    ensures forall i, j :: 0 <= i < |m| && 0 <= j < matrix.Length1 ==> m[i][j] == matrix[i, j]
  {
    seq(matrix.Length0, i requires 0 <= i < matrix.Length0 reads matrix =>
      seq(matrix.Length1, j requires 0 <= j < matrix.Length1 reads matrix => matrix[i, j]))
  }

  method MaxLength(options: seq<seq<real>>) returns (width: nat)
    requires options != []
    ensures forall i :: 0 <= i < |options| ==> |options[i]| <= width
    ensures exists i :: 0 <= i < |options| && |options[i]| == width
  {
    width := |options[0]|;
    for i := 1 to |options|
      invariant forall k :: 0 <= k < i ==> |options[k]| <= width
      invariant exists k :: 0 <= k < i && |options[k]| == width
    {
      if |options[i]| > width {
        width := |options[i]|;
      }
    }
  }

  /** The first option whose padded row no other row is above. */
  ghost predicate FirstGreatest(m: seq<seq<real>>, width: nat, chosen: nat)
    requires Rectangular(m, width)
  {
    && chosen < |m|
    && Greatest(m, width, chosen)
    && forall i: nat :: i < chosen ==> !Greatest(m, width, i)
  }

  lemma FirstRemaining(m: seq<seq<real>>, width: nat, remaining: seq<nat>)
    requires Rectangular(m, width) && remaining != [] && RowNumbers(remaining, |m|)
    requires forall i: nat :: i < |m| ==> (i in remaining <==> Greatest(m, width, i))
    ensures FirstGreatest(m, width, remaining[0])
  {
    assert remaining[0] in remaining;
    forall i | i in remaining
      ensures remaining[0] <= i
    {
      var a :| 0 <= a < |remaining| && remaining[a] == i;
    }
  }

  /** The matrix of the options: its rows are uniform, all numbers exactly when the options are comparable, and then the padded rows. */
  lemma MatrixOfOptions(m: seq<seq<Number>>, options: seq<seq<real>>, width: nat)
    requires |m| == |options| && Rectangular(m, width)
    requires forall i :: 0 <= i < |options| ==> |options[i]| <= width
    requires forall i, j :: 0 <= i < |m| && 0 <= j < width ==> m[i][j] == Entry(options[i], j)
    ensures forall i :: 0 <= i < |m| ==> Uniform(m[i])
    ensures AllNumbers(m) <==> Comparable(options, width)
    ensures Comparable(options, width) ==> Values(m, width) == Rows(options, width)
  {
    if !Comparable(options, width) {
      var i :| 0 <= i < |options| && options[i] == [] && width > 0;
      assert m[i][0].NaN?;
    }
    if Comparable(options, width) {
      forall i | 0 <= i < |m|
        ensures Values(m, width)[i] == Row(options[i], width)
      {
        assert options[i] in options;
      }
      SameRows(Values(m, width), Rows(options, width), width);
    }
  }

  /** Greedy selection of an option among their log-probabilities. It fails without options, and when only some options are empty. */
  method ChooseGreedily(options: seq<seq<real>>) returns (chosen: Option<nat>, width: nat)
    ensures forall o :: o in options ==> |o| <= width
    ensures chosen.Some? <==> options != [] && ((forall o :: o in options ==> o != []) || (forall o :: o in options ==> o == []))
    ensures chosen.Some? ==> Comparable(options, width) && FirstGreatest(Rows(options, width), width, chosen.value)
  {
    if options == [] {
      return None, 0;
    }
    width := MaxLength(options);
    ghost var longest :| 0 <= longest < |options| && |options[longest]| == width;
    assert options[longest] in options;
    var matrix := BuildLogprobMatrix(options, width);
    var rows := RowsOf(matrix);
    MatrixOfOptions(rows, options, width);
    var remaining := GreedySelection(rows, width);
    if remaining.None? || remaining.value == [] {
      return None, width;
    }
    FirstRemaining(Rows(options, width), width, remaining.value);
    chosen := Some(remaining.value[0]);
  }

  lemma SameRows(x: seq<seq<real>>, y: seq<seq<real>>, width: nat)
    requires |x| == |y| && Rectangular(x, width) && Rectangular(y, width)
    requires forall i, j :: 0 <= i < |x| && 0 <= j < width ==> x[i][j] == y[i][j]
    ensures x == y
  {
    assert forall i :: 0 <= i < |x| ==> x[i] == y[i];
  }
}
