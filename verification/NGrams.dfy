/** Statistics of the n-gram paths that the tokens of a request take through the experts of a layer. */
module NGrams {

  /** The paths of length `n` in a sequence, by start. */
  function Windows(s: seq<int>, n: nat): seq<seq<int>>
    requires n >= 1
  {
    if |s| < n then [] else [s[..n]] + Windows(s[1..], n)
  }

  lemma {:induction false} WindowAt(s: seq<int>, n: nat, i: nat)
    requires n >= 1
    ensures |Windows(s, n)| == if |s| < n then 0 else |s| - n + 1
    ensures i < |Windows(s, n)| ==> Windows(s, n)[i] == s[i..i + n]
  {
    if |s| >= n {
      WindowAt(s[1..], n, if i == 0 then 0 else i - 1);
      if 0 < i < |Windows(s, n)| {
        assert s[1..][i - 1..i - 1 + n] == s[i..i + n];
      }
    }
  }

  function AllWindows(seqs: seq<seq<int>>, n: nat): seq<seq<int>>
    requires n >= 1
  {
    if seqs == [] then [] else AllWindows(seqs[..|seqs| - 1], n) + Windows(seqs[|seqs| - 1], n)
  }

  /** All experts of a path are the same. */
  predicate Constant(w: seq<int>) {
    forall i :: 0 <= i < |w| ==> w[i] == w[0]
  }

  type Counts = map<(int, int), nat>

  datatype Stats = Stats(
    total: nat,
    paths: set<seq<int>>,
    counts: Counts,
    selfLoops: nat)

  function CountAt(counts: Counts, source: int, target: int): nat {
    if (source, target) in counts then counts[(source, target)] else 0
  }

  /** The statistics after one more path. */
  function Record(st: Stats, w: seq<int>): Stats
    requires w != []
  {
    var (source, target) := (w[0], w[|w| - 1]);
    Stats(st.total + 1, st.paths + {w},
          st.counts[(source, target) := CountAt(st.counts, source, target) + 1],
          st.selfLoops + if Constant(w) then 1 else 0)
  }

  predicate Paths(ws: seq<seq<int>>) {
    forall i :: 0 <= i < |ws| ==> ws[i] != []
  }

  function Recorded(ws: seq<seq<int>>): Stats
    requires Paths(ws)
  {
    if ws == [] then Stats(0, {}, map[], 0) else Record(Recorded(ws[..|ws| - 1]), ws[|ws| - 1])
  }

  lemma RecordedSnoc(ws: seq<seq<int>>, w: seq<int>)
    requires Paths(ws) && w != []
    ensures Paths(ws + [w]) && Recorded(ws + [w]) == Record(Recorded(ws), w)
  {
    assert (ws + [w])[..|ws|] == ws;
  }

  lemma {:induction false} AllWindowsArePaths(seqs: seq<seq<int>>, n: nat)
    requires n >= 1
    ensures Paths(AllWindows(seqs, n))
    decreases |seqs|
  {
    if seqs != [] {
      AllWindowsArePaths(seqs[..|seqs| - 1], n);
      WindowsArePaths(seqs[|seqs| - 1], n);
    }
  }

  lemma WindowsArePaths(s: seq<int>, n: nat)
    requires n >= 1
    ensures Paths(Windows(s, n))
  {
    forall i | 0 <= i < |Windows(s, n)|
      ensures Windows(s, n)[i] != []
    {
      WindowAt(s, n, i);
    }
  }

  // ---------- The loops ----------

  type Request = map<int, seq<int>>

  function SequenceOf(r: Request, layer: int): seq<int> { if layer in r then r[layer] else [] }

  function LayerSequences(requests: seq<Request>, layer: int): (s: seq<seq<int>>)
    ensures |s| == |requests|
  {
    seq(|requests|, i requires 0 <= i < |requests| => SequenceOf(requests[i], layer))
  }

  method LayerStatistics(requests: seq<Request>, layer: int, n: nat) returns (st: Stats)
    requires n >= 1
    ensures Paths(AllWindows(LayerSequences(requests, layer), n))
    ensures st == Recorded(AllWindows(LayerSequences(requests, layer), n))
  {
    ghost var seqs := LayerSequences(requests, layer);
    AllWindowsArePaths(seqs, n);
    st := Stats(0, {}, map[], 0);
    for r := 0 to |requests|
      invariant Paths(AllWindows(seqs[..r], n)) && st == Recorded(AllWindows(seqs[..r], n))
    {
      var expertSeq := SequenceOf(requests[r], layer);
      st := SlideWindow(st, expertSeq, n, AllWindows(seqs[..r], n));
      assert seqs[..r + 1][..r] == seqs[..r];
      AllWindowsArePaths(seqs[..r + 1], n);
    }
    assert seqs[..|seqs|] == seqs;
  }

  /** The window slides one token at a time. */
  method SlideWindow(st0: Stats, s: seq<int>, n: nat, ghost before: seq<seq<int>>) returns (st: Stats)
    requires n >= 1 && Paths(before) && st0 == Recorded(before)
    ensures Paths(before + Windows(s, n)) && st == Recorded(before + Windows(s, n))
  {
    WindowAt(s, n, 0);
    WindowsArePaths(s, n);
    assert before + [] == before;
    st := st0;
    if |s| < n {
      return;
    }
    for start := 0 to |s| - n + 1
      invariant Paths(before + Windows(s, n)[..start]) && st == Recorded(before + Windows(s, n)[..start])
    {
      var ngram := s[start..start + n];
      WindowAt(s, n, start);
      RecordedSnoc(before + Windows(s, n)[..start], ngram);
      assert before + Windows(s, n)[..start] + [ngram] == before + Windows(s, n)[..start + 1];
      st := Record(st, ngram);
    }
    assert Windows(s, n)[..|s| - n + 1] == Windows(s, n);
  }

  // ---------- What the counters hold ----------

  function CountPair(ws: seq<seq<int>>, source: int, target: int): nat
    requires Paths(ws)
  {
    if ws == [] then 0
    else
      var w := ws[|ws| - 1];
      CountPair(ws[..|ws| - 1], source, target) + if w[0] == source && w[|w| - 1] == target then 1 else 0
  }

  function CountConstant(ws: seq<seq<int>>): nat {
    if ws == [] then 0 else CountConstant(ws[..|ws| - 1]) + if Constant(ws[|ws| - 1]) then 1 else 0
  }

  lemma {:induction false} RecordedCounts(ws: seq<seq<int>>, source: int, target: int)
    requires Paths(ws)
    ensures var st := Recorded(ws);
            && st.total == |ws|
            && st.selfLoops == CountConstant(ws)
            && CountAt(st.counts, source, target) == CountPair(ws, source, target)
            && (forall w :: w in st.paths <==> w in ws)
    decreases |ws|
  {
    if ws != [] {
      RecordedCounts(ws[..|ws| - 1], source, target);
      assert ws == ws[..|ws| - 1] + [ws[|ws| - 1]];
    }
  }

  lemma {:induction false} CountConstantAppend(xs: seq<seq<int>>, ys: seq<seq<int>>)
    ensures CountConstant(xs + ys) == CountConstant(xs) + CountConstant(ys)
    decreases |ys|
  {
    if ys == [] {
      assert xs + ys == xs;
    } else {
      assert (xs + ys)[..|xs + ys| - 1] == xs + ys[..|ys| - 1];
      CountConstantAppend(xs, ys[..|ys| - 1]);
    }
  }

  // ---------- Self loops are run lengths ----------

  /** A maximal stretch of one expert. */
  datatype Run = Run(expert: int, length: nat)

  function Runs(s: seq<int>): seq<Run> {
    if s == [] then []
    else
      var rest := Runs(s[1..]);
      if rest != [] && rest[0].expert == s[0] then [Run(s[0], rest[0].length + 1)] + rest[1..]
      else [Run(s[0], 1)] + rest
  }

  function Repeat(x: int, k: nat): seq<int> {
    if k == 0 then [] else [x] + Repeat(x, k - 1)
  }

  function Unfold(runs: seq<Run>): seq<int> {
    if runs == [] then [] else Repeat(runs[0].expert, runs[0].length) + Unfold(runs[1..])
  }

  /** The runs spell the sequence; none is empty, and neighbours differ, so each is maximal. */
  lemma {:induction false} RunsAreMaximal(s: seq<int>)
    ensures Unfold(Runs(s)) == s
    ensures forall i :: 0 <= i < |Runs(s)| ==> Runs(s)[i].length >= 1
    ensures forall i :: 0 <= i < |Runs(s)| - 1 ==> Runs(s)[i].expert != Runs(s)[i + 1].expert
  {
    if s != [] {
      RunsAreMaximal(s[1..]);
      var rest := Runs(s[1..]);
      if rest != [] && rest[0].expert == s[0] {
        assert Runs(s)[1..] == rest[1..];
        assert [s[0]] + (Repeat(s[0], rest[0].length) + Unfold(rest[1..])) == s;
        assert Unfold(Runs(s)) == [s[0]] + Repeat(s[0], rest[0].length) + Unfold(rest[1..]);
      } else {
        assert Runs(s)[1..] == rest;
        assert Repeat(s[0], 1) == [s[0]] + Repeat(s[0], 0);
      }
    }
  }

  function Excess(length: nat, n: nat): nat { if length < n then 0 else length - n + 1 }

  function RunLoops(runs: seq<Run>, n: nat): nat {
    if runs == [] then 0 else Excess(runs[0].length, n) + RunLoops(runs[1..], n)
  }

  /** The first run is the longest constant beginning. */
  lemma {:induction false} FirstRun(s: seq<int>, n: nat)
    requires 1 <= n <= |s|
    ensures Runs(s) != [] && Runs(s)[0].expert == s[0]
    ensures Constant(s[..n]) <==> Runs(s)[0].length >= n
    decreases |s|
  {
    if n == 1 {
      if |s| > 1 {
        FirstRun(s[1..], 1);
      }
    } else {
      FirstRun(s[1..], n - 1);
      assert s[1..][..n - 1] == s[..n][1..];
      var w := s[..n];
      assert Constant(w) <==> Constant(w[1..]) && w[1] == w[0] by {
        if Constant(w) {
          assert forall i :: 0 <= i < |w| - 1 ==> w[1..][i] == w[i + 1];
        }
        if Constant(w[1..]) && w[1] == w[0] {
          assert forall i :: 1 <= i < |w| ==> w[i] == w[1..][i - 1];
        }
      }
    }
  }

  lemma CountConstantFirst(w: seq<int>, ws: seq<seq<int>>)
    ensures CountConstant([w] + ws) == (if Constant(w) then 1 else 0) + CountConstant(ws)
  {
    CountConstantAppend([w], ws);
    assert [w][..0] == [];
  }

  lemma {:induction false} RunLoopsOfShort(s: seq<int>, n: nat)
    requires n >= 1 && |s| < n
    ensures RunLoops(Runs(s), n) == 0
    ensures Runs(s) != [] ==> Runs(s)[0].length <= |s|
  {
    if s != [] {
      RunLoopsOfShort(s[1..], n);
      var rest := Runs(s[1..]);
      assert Runs(s)[1..] == if rest != [] && rest[0].expert == s[0] then rest[1..] else rest;
    }
  }

  /** In one sequence: the constant paths are those that fit into its runs. */
  lemma {:induction false} SelfLoopsAreRuns(s: seq<int>, n: nat)
    requires n >= 1
    ensures CountConstant(Windows(s, n)) == RunLoops(Runs(s), n)
  {
    if |s| < n {
      RunLoopsOfShort(s, n);
    } else {
      SelfLoopsAreRuns(s[1..], n);
      CountConstantFirst(s[..n], Windows(s[1..], n));
      FirstRun(s, n);
      var rest := Runs(s[1..]);
      assert Runs(s)[1..] == if rest != [] && rest[0].expert == s[0] then rest[1..] else rest;
    }
  }

  function AllRunLoops(seqs: seq<seq<int>>, n: nat): nat {
    if seqs == [] then 0 else AllRunLoops(seqs[..|seqs| - 1], n) + RunLoops(Runs(seqs[|seqs| - 1]), n)
  }

  /** The self loops of a layer: over all runs of all requests, the number of paths that fit into each. */
  lemma {:induction false} LayerSelfLoops(seqs: seq<seq<int>>, n: nat)
    requires n >= 1
    ensures CountConstant(AllWindows(seqs, n)) == AllRunLoops(seqs, n)
    decreases |seqs|
  {
    if seqs != [] {
      var last := |seqs| - 1;
      LayerSelfLoops(seqs[..last], n);
      SelfLoopsAreRuns(seqs[last], n);
      CountConstantAppend(AllWindows(seqs[..last], n), Windows(seqs[last], n));
    }
  }

  lemma {:induction false} RunLoopsShrink(runs: seq<Run>, m: nat, n: nat)
    requires m <= n
    ensures RunLoops(runs, n) <= RunLoops(runs, m)
  {
    if runs != [] {
      RunLoopsShrink(runs[1..], m, n);
    }
  }

  lemma {:induction false} AllRunLoopsShrink(seqs: seq<seq<int>>, m: nat, n: nat)
    requires m <= n
    ensures AllRunLoops(seqs, n) <= AllRunLoops(seqs, m)
    decreases |seqs|
  {
    if seqs != [] {
      AllRunLoopsShrink(seqs[..|seqs| - 1], m, n);
      RunLoopsShrink(Runs(seqs[|seqs| - 1]), m, n);
    }
  }

  /** Longer paths never have more self loops. */
  lemma SelfLoopsShrink(seqs: seq<seq<int>>, m: nat, n: nat)
    requires 1 <= m <= n
    ensures CountConstant(AllWindows(seqs, n)) <= CountConstant(AllWindows(seqs, m))
  {
    LayerSelfLoops(seqs, m);
    LayerSelfLoops(seqs, n);
    AllRunLoopsShrink(seqs, m, n);
  }

  // ---------- The transition matrix ----------

  method TransitionMatrix(counts: Counts, experts: nat) returns (matrix: array2<nat>)
    ensures fresh(matrix) && matrix.Length0 == matrix.Length1 == experts
    ensures forall a, b :: 0 <= a < experts && 0 <= b < experts ==> matrix[a, b] == CountAt(counts, a, b)
  {
    matrix := new nat[experts, experts]((_, _) => 0);
    var todo := counts.Keys;
    while todo != {}
      invariant todo <= counts.Keys
      invariant forall a, b :: 0 <= a < experts && 0 <= b < experts ==>
                  matrix[a, b] == if (a, b) in todo then 0 else CountAt(counts, a, b)
      decreases |todo|
    {
      var pair :| pair in todo;
      if 0 <= pair.0 < experts && 0 <= pair.1 < experts {
        matrix[pair.0, pair.1] := counts[pair];
      }
      todo := todo - {pair};
    }
  }

  /** A row of the matrix up to column `k`. */
  function RowSum(ws: seq<seq<int>>, a: int, k: nat): nat
    requires Paths(ws)
  {
    if k == 0 then 0 else RowSum(ws, a, k - 1) + CountPair(ws, a, k - 1)
  }

  function ColumnSum(ws: seq<seq<int>>, b: int, k: nat): nat
    requires Paths(ws)
  {
    if k == 0 then 0 else ColumnSum(ws, b, k - 1) + CountPair(ws, k - 1, b)
  }

  /** The first `k` rows of the matrix. */
  function MatrixSum(ws: seq<seq<int>>, experts: nat, k: nat): nat
    requires Paths(ws)
  {
    if k == 0 then 0 else MatrixSum(ws, experts, k - 1) + RowSum(ws, k - 1, experts)
  }

  function CountWhere(ws: seq<seq<int>>, p: seq<int> -> bool): nat {
    if ws == [] then 0 else CountWhere(ws[..|ws| - 1], p) + if p(ws[|ws| - 1]) then 1 else 0
  }

  predicate From(w: seq<int>, a: int) { w != [] && w[0] == a }

  predicate To(w: seq<int>, b: int) { w != [] && w[|w| - 1] == b }

  predicate ToBelow(w: seq<int>, k: nat) { w != [] && 0 <= w[|w| - 1] < k }

  predicate FromBelow(w: seq<int>, k: nat) { w != [] && 0 <= w[0] < k }

  lemma {:induction false} RowSumLast(ws: seq<seq<int>>, a: int, k: nat)
    requires Paths(ws) && ws != []
    ensures RowSum(ws, a, k) == RowSum(ws[..|ws| - 1], a, k) +
              if From(ws[|ws| - 1], a) && ToBelow(ws[|ws| - 1], k) then 1 else 0
  {
    if k > 0 {
      RowSumLast(ws, a, k - 1);
    }
  }

  lemma {:induction false} ColumnSumLast(ws: seq<seq<int>>, b: int, k: nat)
    requires Paths(ws) && ws != []
    ensures ColumnSum(ws, b, k) == ColumnSum(ws[..|ws| - 1], b, k) +
              if To(ws[|ws| - 1], b) && FromBelow(ws[|ws| - 1], k) then 1 else 0
  {
    if k > 0 {
      ColumnSumLast(ws, b, k - 1);
    }
  }

  lemma {:induction false} MatrixSumLast(ws: seq<seq<int>>, experts: nat, k: nat)
    requires Paths(ws) && ws != []
    ensures MatrixSum(ws, experts, k) == MatrixSum(ws[..|ws| - 1], experts, k) +
              if FromBelow(ws[|ws| - 1], k) && ToBelow(ws[|ws| - 1], experts) then 1 else 0
  {
    if k > 0 {
      MatrixSumLast(ws, experts, k - 1);
      RowSumLast(ws, k - 1, experts);
    }
  }

  /** The matrix counts exactly the paths between experts it has room for. */
  lemma {:induction false} MatrixCountsInside(ws: seq<seq<int>>, experts: nat)
    requires Paths(ws)
    ensures MatrixSum(ws, experts, experts) == CountWhere(ws, w => FromBelow(w, experts) && ToBelow(w, experts))
    decreases |ws|
  {
    if ws == [] {
      EmptyMatrix(experts, experts);
    } else {
      MatrixCountsInside(ws[..|ws| - 1], experts);
      MatrixSumLast(ws, experts, experts);
    }
  }

  lemma {:induction false} EmptyRow(a: int, k: nat)
    ensures RowSum([], a, k) == 0 && ColumnSum([], a, k) == 0
  {
    if k > 0 {
      EmptyRow(a, k - 1);
    }
  }

  lemma {:induction false} EmptyMatrix(experts: nat, k: nat)
    ensures MatrixSum([], experts, k) == 0
  {
    if k > 0 {
      EmptyMatrix(experts, k - 1);
      EmptyRow(k - 1, experts);
    }
  }

  lemma {:induction false} CountsAllExactlyWhen(ws: seq<seq<int>>, p: seq<int> -> bool)
    ensures CountWhere(ws, p) <= |ws|
    ensures CountWhere(ws, p) == |ws| <==> forall i :: 0 <= i < |ws| ==> p(ws[i])
    decreases |ws|
  {
    if ws != [] {
      CountsAllExactlyWhen(ws[..|ws| - 1], p);
    }
  }

  /** Conservation: the matrix sums to the number of transitions exactly when every path begins and ends at an expert the matrix has. */
  lemma MatrixConservesTransitions(ws: seq<seq<int>>, experts: nat)
    requires Paths(ws)
    ensures MatrixSum(ws, experts, experts) == |ws| <==>
            forall i :: 0 <= i < |ws| ==> FromBelow(ws[i], experts) && ToBelow(ws[i], experts)
  {
    MatrixCountsInside(ws, experts);
    CountsAllExactlyWhen(ws, w => FromBelow(w, experts) && ToBelow(w, experts));
  }

  function TotalExcess(seqs: seq<seq<int>>, n: nat): nat {
    if seqs == [] then 0 else TotalExcess(seqs[..|seqs| - 1], n) + Excess(|seqs[|seqs| - 1]|, n)
  }

  /** The number of paths. */
  lemma {:induction false} TotalTransitions(seqs: seq<seq<int>>, n: nat)
    requires n >= 1
    ensures |AllWindows(seqs, n)| == TotalExcess(seqs, n)
    decreases |seqs|
  {
    if seqs != [] {
      TotalTransitions(seqs[..|seqs| - 1], n);
      WindowAt(seqs[|seqs| - 1], n, 0);
    }
  }

  predicate AllIds(s: seq<int>, experts: nat) {
    forall i :: 0 <= i < |s| ==> 0 <= s[i] < experts
  }

  /** When every id is an expert of the matrix, nothing is lost. */
  lemma {:induction false} IdsInRange(seqs: seq<seq<int>>, n: nat, experts: nat)
    requires n >= 1 && forall i :: 0 <= i < |seqs| ==> AllIds(seqs[i], experts)
    ensures forall i :: 0 <= i < |AllWindows(seqs, n)| ==>
              FromBelow(AllWindows(seqs, n)[i], experts) && ToBelow(AllWindows(seqs, n)[i], experts)
    decreases |seqs|
  {
    if seqs != [] {
      var last := |seqs| - 1;
      IdsInRange(seqs[..last], n, experts);
      forall i | 0 <= i < |Windows(seqs[last], n)|
        ensures FromBelow(Windows(seqs[last], n)[i], experts) && ToBelow(Windows(seqs[last], n)[i], experts)
      {
        WindowAt(seqs[last], n, i);
      }
    }
  }

  // ---------- All layers ----------

  function LayerNumbers(requests: seq<Request>): set<int> {
    if requests == [] then {} else LayerNumbers(requests[..|requests| - 1]) + requests[|requests| - 1].Keys
  }

  function ExpertNumbers(requests: seq<Request>): set<int> {
    if requests == [] then {}
    else
      var last := requests[|requests| - 1];
      ExpertNumbers(requests[..|requests| - 1]) + set layer, id | layer in last && id in last[layer] :: id
  }

  /** One more than the greatest member, or zero for the empty set. */
  ghost predicate IsExtent(s: set<int>, extent: int) {
    (s == {} ==> extent == 0) && (s != {} ==> extent - 1 in s) && forall x :: x in s ==> x < extent
  }

  lemma HasMember(s: set<int>)
    ensures s == {} || exists x :: x in s
  {
    if forall x :: x !in s {
      assert s == {};
    }
  }

  method Extent(s: set<int>) returns (extent: int)
    ensures IsExtent(s, extent)
  {
    if s == {} {
      return 0;
    }
    HasMember(s);
    var greatest :| greatest in s;
    var todo := s - {greatest};
    while todo != {}
      invariant todo <= s && greatest in s && forall x :: x in s && x !in todo ==> x <= greatest
      decreases |todo|
    {
      HasMember(todo);
      var x :| x in todo;
      if x > greatest {
        greatest := x;
      }
      todo := todo - {x};
    }
    extent := greatest + 1;
  }

  method CollectNumbers(requests: seq<Request>) returns (layers: set<int>, experts: set<int>)
    ensures layers == LayerNumbers(requests) && experts == ExpertNumbers(requests)
  {
    layers, experts := {}, {};
    for r := 0 to |requests|
      invariant layers == LayerNumbers(requests[..r]) && experts == ExpertNumbers(requests[..r])
    {
      assert requests[..r + 1][..r] == requests[..r];
      var data := requests[r];
      layers := layers + data.Keys;
      experts := experts + set layer, id | layer in data && id in data[layer] :: id;
    }
    assert requests[..|requests|] == requests;
  }

  /** The share of the transitions that are self loops. */
  function SelfLoopRatio(st: Stats): real {
    if st.total > 0 then st.selfLoops as real / st.total as real else 0.0
  }

  lemma RatioOfStats(st: Stats)
    requires st.selfLoops <= st.total
    ensures 0.0 <= SelfLoopRatio(st) <= 1.0
    ensures SelfLoopRatio(st) * (st.total as real) == st.selfLoops as real
    ensures SelfLoopRatio(st) == 1.0 <==> st.selfLoops == st.total > 0
  {
    if st.total > 0 {
      var (r, x, y) := (SelfLoopRatio(st), st.selfLoops as real, st.total as real);
      assert r * y == x;
      assert r == 1.0 ==> 1.0 * y == x;
      assert x == y ==> r == 1.0;
    }
  }

  /** The ratio is a share: between 0 and 1, and 1 exactly when there are paths and each stays at one expert. */
  lemma RatioIsAShare(ws: seq<seq<int>>, st: Stats)
    requires Paths(ws) && st == Recorded(ws)
    ensures 0.0 <= SelfLoopRatio(st) <= 1.0
    ensures SelfLoopRatio(st) * (st.total as real) == CountConstant(ws) as real
    ensures SelfLoopRatio(st) == 1.0 <==> ws != [] && forall w :: w in ws ==> Constant(w)
  {
    RecordedCounts(ws, 0, 0);
    ConstantAtMostAll(ws);
    RatioOfStats(st);
  }

  lemma {:induction false} ConstantAtMostAll(ws: seq<seq<int>>)
    ensures CountConstant(ws) <= |ws|
    ensures CountConstant(ws) == |ws| <==> forall w :: w in ws ==> Constant(w)
  {
    if ws != [] {
      ConstantAtMostAll(ws[..|ws| - 1]);
      assert ws == ws[..|ws| - 1] + [ws[|ws| - 1]];
    }
  }

  /** The statistics of layer `layer`, with its ratio and its matrix. */
  ghost predicate IsLayerResult(requests: seq<Request>, layer: int, n: nat, experts: nat, st: Stats, ratio: real, matrix: array2<nat>)
    requires n >= 1
    reads matrix
  {
    var ws := AllWindows(LayerSequences(requests, layer), n);
    && Paths(ws) && st == Recorded(ws) && ratio == SelfLoopRatio(st)
    && matrix.Length0 == matrix.Length1 == experts
    && forall a, b :: 0 <= a < experts && 0 <= b < experts ==> matrix[a, b] == CountPair(ws, a, b)
  }

  /** All layers below the greatest one. With negative expert numbers only, a matrix cannot be made. */
  method CalculateNgramStatistics(requests: seq<Request>, n: nat)
    returns (ok: bool, stats: seq<Stats>, ratios: seq<real>, matrices: seq<array2<nat>>, layers: int, experts: int)
    requires n >= 1
    ensures IsExtent(LayerNumbers(requests), layers) && IsExtent(ExpertNumbers(requests), experts)
    ensures ok <==> layers <= 0 || experts >= 0
    ensures ok ==> |stats| == |ratios| == |matrices| == if layers <= 0 then 0 else layers
    ensures ok ==> forall l :: 0 <= l < |stats| ==> IsLayerResult(requests, l, n, experts, stats[l], ratios[l], matrices[l])
  {
    var layerNumbers, expertNumbers := CollectNumbers(requests);
    layers := Extent(layerNumbers);
    experts := Extent(expertNumbers);
    ok, stats, ratios, matrices := layers <= 0 || experts >= 0, [], [], [];
    if layers <= 0 || !ok {
      return;
    }
    for layer := 0 to layers
      invariant |stats| == |ratios| == |matrices| == layer
      invariant forall l :: 0 <= l < layer ==> IsLayerResult(requests, l, n, experts, stats[l], ratios[l], matrices[l])
    {
      var st := LayerStatistics(requests, layer, n);
      var matrix := TransitionMatrix(st.counts, experts);
      MatrixHoldsCounts(AllWindows(LayerSequences(requests, layer), n));
      stats, ratios, matrices := stats + [st], ratios + [SelfLoopRatio(st)], matrices + [matrix];
    }
  }

  lemma MatrixHoldsCounts(ws: seq<seq<int>>)
    requires Paths(ws)
    ensures forall a, b :: CountAt(Recorded(ws).counts, a, b) == CountPair(ws, a, b)
  {
    forall a, b {
      RecordedCounts(ws, a, b);
    }
  }

  // ---------- Flow through an expert ----------

  /** Row and column sums of an expert over all experts: the paths from it and to it. */
  lemma {:induction false} SumsCountPaths(ws: seq<seq<int>>, a: int, experts: nat)
    requires Paths(ws)
    requires forall i :: 0 <= i < |ws| ==> FromBelow(ws[i], experts) && ToBelow(ws[i], experts)
    ensures RowSum(ws, a, experts) == CountWhere(ws, w => From(w, a))
    ensures ColumnSum(ws, a, experts) == CountWhere(ws, w => To(w, a))
    decreases |ws|
  {
    if ws == [] {
      EmptyRow(a, experts);
    } else {
      SumsCountPaths(ws[..|ws| - 1], a, experts);
      RowSumLast(ws, a, experts);
      ColumnSumLast(ws, a, experts);
    }
  }

  lemma {:induction false} CountWhereAppend(xs: seq<seq<int>>, ys: seq<seq<int>>, p: seq<int> -> bool)
    ensures CountWhere(xs + ys, p) == CountWhere(xs, p) + CountWhere(ys, p)
    decreases |ys|
  {
    if ys == [] {
      assert xs + ys == xs;
    } else {
      assert (xs + ys)[..|xs + ys| - 1] == xs + ys[..|ys| - 1];
      CountWhereAppend(xs, ys[..|ys| - 1], p);
    }
  }

  lemma CountWhereFirst(w: seq<int>, ws: seq<seq<int>>, p: seq<int> -> bool)
    ensures CountWhere([w] + ws, p) == (if p(w) then 1 else 0) + CountWhere(ws, p)
  {
    CountWhereAppend([w], ws, p);
    assert [w][..0] == [];
  }

  predicate Starts(s: seq<int>, a: int) { |s| >= 2 && s[0] == a }

  predicate Ends(s: seq<int>, a: int) { |s| >= 2 && s[|s| - 1] == a }

  function One(b: bool): nat { if b then 1 else 0 }

  /** In one sequence, an expert is left as often as it is entered, but for the two ends. */
  lemma {:induction false} SequenceFlow(s: seq<int>, a: int)
    ensures CountWhere(Windows(s, 2), w => From(w, a)) + One(Ends(s, a)) ==
            CountWhere(Windows(s, 2), w => To(w, a)) + One(Starts(s, a))
  {
    if |s| >= 2 {
      SequenceFlow(s[1..], a);
      CountWhereFirst(s[..2], Windows(s[1..], 2), w => From(w, a));
      CountWhereFirst(s[..2], Windows(s[1..], 2), w => To(w, a));
      if |s| == 2 {
        assert Windows(s[1..], 2) == [];
      }
    }
  }

  function CountStarts(seqs: seq<seq<int>>, a: int): nat {
    if seqs == [] then 0 else CountStarts(seqs[..|seqs| - 1], a) + One(Starts(seqs[|seqs| - 1], a))
  }

  function CountEnds(seqs: seq<seq<int>>, a: int): nat {
    if seqs == [] then 0 else CountEnds(seqs[..|seqs| - 1], a) + One(Ends(seqs[|seqs| - 1], a))
  }

  lemma {:induction false} LayerFlow(seqs: seq<seq<int>>, a: int)
    ensures CountWhere(AllWindows(seqs, 2), w => From(w, a)) + CountEnds(seqs, a) ==
            CountWhere(AllWindows(seqs, 2), w => To(w, a)) + CountStarts(seqs, a)
    decreases |seqs|
  {
    if seqs != [] {
      var last := |seqs| - 1;
      LayerFlow(seqs[..last], a);
      SequenceFlow(seqs[last], a);
      CountWhereAppend(AllWindows(seqs[..last], 2), Windows(seqs[last], 2), w => From(w, a));
      CountWhereAppend(AllWindows(seqs[..last], 2), Windows(seqs[last], 2), w => To(w, a));
    }
  }

  /** Flow conservation for pairs: an expert's row sum and column sum differ by the sequences that start and end at it. */
  lemma FlowIsConserved(seqs: seq<seq<int>>, a: int, experts: nat)
    requires forall i :: 0 <= i < |seqs| ==> AllIds(seqs[i], experts)
    ensures Paths(AllWindows(seqs, 2))
    ensures RowSum(AllWindows(seqs, 2), a, experts) - ColumnSum(AllWindows(seqs, 2), a, experts) ==
            CountStarts(seqs, a) - CountEnds(seqs, a)
  {
    AllWindowsArePaths(seqs, 2);
    IdsInRange(seqs, 2, experts);
    SumsCountPaths(AllWindows(seqs, 2), a, experts);
    LayerFlow(seqs, a);
  }

  lemma {:induction false} IdsOfLayer(requests: seq<Request>, layer: int, i: nat, k: nat)
    requires i < |requests| && k < |LayerSequences(requests, layer)[i]|
    ensures LayerSequences(requests, layer)[i][k] in ExpertNumbers(requests)
    decreases |requests|
  {
    var (last, front) := (requests[|requests| - 1], requests[..|requests| - 1]);
    if i < |requests| - 1 {
      assert LayerSequences(requests, layer)[i] == LayerSequences(front, layer)[i];
      IdsOfLayer(front, layer, i, k);
    } else {
      var id := SequenceOf(last, layer)[k];
      assert layer in last && id in last[layer];
    }
  }

  /** In terms of what is computed from the requests: no id being negative, flow is conserved and no transition is lost in any layer. */
  lemma LayerConserves(requests: seq<Request>, layer: int, a: int, n: nat, experts: int)
    requires IsExtent(ExpertNumbers(requests), experts) && forall id :: id in ExpertNumbers(requests) ==> id >= 0
    requires n >= 1
    ensures experts >= 0
    ensures var (pairs, ws) := (AllWindows(LayerSequences(requests, layer), 2), AllWindows(LayerSequences(requests, layer), n));
            && Paths(pairs) && Paths(ws)
            && RowSum(pairs, a, experts) - ColumnSum(pairs, a, experts) ==
               CountStarts(LayerSequences(requests, layer), a) - CountEnds(LayerSequences(requests, layer), a)
            && MatrixSum(ws, experts, experts) == TotalExcess(LayerSequences(requests, layer), n)
  {
    var seqs := LayerSequences(requests, layer);
    forall i | 0 <= i < |seqs|
      ensures AllIds(seqs[i], experts)
    {
      forall k | 0 <= k < |seqs[i]|
        ensures 0 <= seqs[i][k] < experts
      {
        IdsOfLayer(requests, layer, i, k);
      }
    }
    FlowIsConserved(seqs, a, experts);
    AllWindowsArePaths(seqs, n);
    IdsInRange(seqs, n, experts);
    MatrixConservesTransitions(AllWindows(seqs, n), experts);
    TotalTransitions(seqs, n);
  }

  /** Which sequences a layer's statistics are about: of each request, the sequence it has for that layer, if any. */
  lemma SequencesOfRequests(requests: seq<Request>, layer: int, i: nat)
    requires i < |requests|
    ensures |LayerSequences(requests, layer)| == |requests|
    ensures LayerSequences(requests, layer)[i] == if layer in requests[i] then requests[i][layer] else []
  {}

  predicate HasLayer(requests: seq<Request>, i: int, layer: int) { 0 <= i < |requests| && layer in requests[i] }

  /** The numbers collected are exactly those that occur. */
  lemma {:induction false} NumbersOccur(requests: seq<Request>)
    ensures forall layer :: layer in LayerNumbers(requests) <==> exists i :: HasLayer(requests, i, layer)
    ensures forall id :: id in ExpertNumbers(requests) <==> exists i, layer :: HasLayer(requests, i, layer) && id in requests[i][layer]
    decreases |requests|
  {
    if requests != [] {
      var (front, last) := (requests[..|requests| - 1], requests[|requests| - 1]);
      NumbersOccur(front);
      assert forall i, layer :: HasLayer(front, i, layer) ==> HasLayer(requests, i, layer) && front[i] == requests[i];
      assert forall i, layer :: HasLayer(requests, i, layer) && i < |front| ==> HasLayer(front, i, layer);
      assert forall layer :: HasLayer(requests, |requests| - 1, layer) <==> layer in last;
    }
  }
}
