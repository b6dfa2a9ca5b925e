/** Weights of the experts of a layer, and the smallest or strongest groups of them. */
module ExpertGroups {

  import opened Options

  /** A layer of a record; `layer` is missing when its key is not a number, a weight when it is not one. */
  datatype LayerEntry = LayerEntry(layer: Option<int>, expertIds: seq<int>, weights: seq<Option<real>>)

  type Record = seq<LayerEntry>

  /** A counter: experts in the order in which they were first seen, each once. */
  datatype Entry = Entry(id: int, weight: real)
  type Counter = seq<Entry>

  predicate DistinctIds(c: Counter) {
    forall i, j :: 0 <= i < j < |c| ==> c[i].id != c[j].id
  }

  function Total(c: Counter): real {
    if c == [] then 0.0 else c[0].weight + Total(c[1..])
  }

  function WeightOf(c: Counter, id: int): real {
    if c == [] then 0.0 else if c[0].id == id then c[0].weight else WeightOf(c[1..], id)
  }

  /** `c[id] += weight`. */
  function Add(c: Counter, id: int, weight: real): Counter {
    if c == [] then [Entry(id, 0.0 + weight)]
    else if c[0].id == id then [Entry(id, c[0].weight + weight)] + c[1..]
    else [c[0]] + Add(c[1..], id, weight)
  }

  lemma {:induction false} AddWeight(c: Counter, id: int, weight: real, other: int)
    ensures Total(Add(c, id, weight)) == Total(c) + weight
    ensures WeightOf(Add(c, id, weight), other) == WeightOf(c, other) + (if other == id then weight else 0.0)
  {
    if c != [] {
      if c[0].id == id {
        Cons(Entry(id, c[0].weight + weight), c[1..]);
      } else {
        AddWeight(c[1..], id, weight, other);
        Cons(c[0], Add(c[1..], id, weight));
      }
    }
  }

  lemma Cons(e: Entry, c: Counter)
    ensures ([e] + c)[1..] == c && ([e] + c)[0] == e
  {}

  predicate Has(c: Counter, id: int) {
    exists i :: 0 <= i < |c| && c[i].id == id
  }

  lemma {:induction false} AddIds(c: Counter, id: int, weight: real, other: int)
    ensures Has(Add(c, id, weight), other) <==> other == id || Has(c, other)
  {
    if c == [] {
      assert Add(c, id, weight)[0].id == id;
    } else if c[0].id == id {
      HasCons(Entry(id, c[0].weight + weight), c[1..], other);
      HasCons(c[0], c[1..], other);
    } else {
      AddIds(c[1..], id, weight, other);
      HasCons(c[0], Add(c[1..], id, weight), other);
      HasCons(c[0], c[1..], other);
    }
    assert c != [] ==> c == [c[0]] + c[1..];
  }

  lemma HasCons(e: Entry, c: Counter, id: int)
    ensures Has([e] + c, id) <==> e.id == id || Has(c, id)
  {
    var l := [e] + c;
    assert l[0] == e && forall i :: 0 <= i < |c| ==> l[i + 1] == c[i];
    if Has(c, id) {
      var i :| 0 <= i < |c| && c[i].id == id;
      assert l[i + 1].id == id;
    }
  }

  lemma DistinctCons(e: Entry, c: Counter)
    ensures DistinctIds([e] + c) <==> DistinctIds(c) && !Has(c, e.id)
  {
    var l := [e] + c;
    assert forall i :: 0 <= i < |c| ==> l[i + 1] == c[i];
    if DistinctIds(l) {
      forall i, j | 0 <= i < j < |c|
        ensures c[i].id != c[j].id
      {
        assert l[i + 1].id != l[j + 1].id;
      }
      forall i | 0 <= i < |c|
        ensures c[i].id != e.id
      {
        assert l[0].id != l[i + 1].id;
      }
    }
  }

  lemma {:induction false} AddDistinct(c: Counter, id: int, weight: real)
    requires DistinctIds(c)
    ensures DistinctIds(Add(c, id, weight))
  {
    if c != [] {
      assert c == [c[0]] + c[1..];
      DistinctCons(c[0], c[1..]);
      if c[0].id == id {
        DistinctCons(Entry(id, c[0].weight + weight), c[1..]);
      } else {
        AddDistinct(c[1..], id, weight);
        AddIds(c[1..], id, weight, c[0].id);
        DistinctCons(c[0], Add(c[1..], id, weight));
      }
    }
  }

  // ---------- Collecting the weights ----------

  datatype Contribution = Contribution(layer: int, id: int, weight: real)

  /** What the first `n` expert ids of a layer contribute. */
  function LayerContributions(e: LayerEntry, n: nat): seq<Contribution>
    requires n <= |e.expertIds| && (e.weights != [] ==> n <= |e.weights|)
  {
    if n == 0 || e.layer.None? then []
    else
      LayerContributions(e, n - 1) +
      (if e.weights == [] then [Contribution(e.layer.value, e.expertIds[n - 1], 1.0)]
       else if e.weights[n - 1].Some? then [Contribution(e.layer.value, e.expertIds[n - 1], e.weights[n - 1].value)]
       else [])
  }

  function Counted(e: LayerEntry): (n: nat)
    ensures n <= |e.expertIds| && (e.weights != [] ==> n <= |e.weights|)
  {
    if e.weights != [] && |e.weights| < |e.expertIds| then |e.weights| else |e.expertIds|
  }

  function RecordContributions(r: Record): seq<Contribution> {
    if r == [] then []
    else RecordContributions(r[..|r| - 1]) + LayerContributions(r[|r| - 1], Counted(r[|r| - 1]))
  }

  function Contributions(records: seq<Record>): seq<Contribution> {
    if records == [] then []
    else Contributions(records[..|records| - 1]) + RecordContributions(records[|records| - 1])
  }

  /** The two dictionaries: expert weights and total weight by layer. */
  datatype Tally = Tally(weights: map<int, Counter>, totals: map<int, real>)

  function CounterOf(t: Tally, layer: int): Counter { if layer in t.weights then t.weights[layer] else [] }

  function TotalOf(t: Tally, layer: int): real { if layer in t.totals then t.totals[layer] else 0.0 }

  function Contribute(t: Tally, c: Contribution): Tally {
    Tally(t.weights[c.layer := Add(CounterOf(t, c.layer), c.id, c.weight)],
          t.totals[c.layer := TotalOf(t, c.layer) + c.weight])
  }

  function Tallied(cs: seq<Contribution>): Tally {
    if cs == [] then Tally(map[], map[]) else Contribute(Tallied(cs[..|cs| - 1]), cs[|cs| - 1])
  }

  /** The weight contributed to one expert of one layer. */
  function Contributed(cs: seq<Contribution>, layer: int, id: int): real {
    if cs == [] then 0.0
    else
      var c := cs[|cs| - 1];
      Contributed(cs[..|cs| - 1], layer, id) + (if c.layer == layer && c.id == id then c.weight else 0.0)
  }

  lemma TalliedSnoc(cs: seq<Contribution>, c: Contribution)
    ensures Tallied(cs + [c]) == Contribute(Tallied(cs), c)
  {
    assert (cs + [c])[..|cs|] == cs;
  }

  lemma Associative(x: seq<Contribution>, y: seq<Contribution>, z: seq<Contribution>)
    ensures (x + y) + z == x + (y + z) && x + [] == x
  {}

  method ComputeLayerExpertWeights(records: seq<Record>) returns (t: Tally)
    ensures t == Tallied(Contributions(records))
  {
    t := Tally(map[], map[]);
    for i := 0 to |records|
      invariant t == Tallied(Contributions(records[..i]))
    {
      t := AddRecord(t, records[i], Contributions(records[..i]));
      assert records[..i + 1][..i] == records[..i];
    }
    assert records[..|records|] == records;
  }

  method AddRecord(t0: Tally, r: Record, ghost before: seq<Contribution>) returns (t: Tally)
    requires t0 == Tallied(before)
    ensures t == Tallied(before + RecordContributions(r))
  {
    t := t0;
    Associative(before, [], []);
    for j := 0 to |r|
      invariant t == Tallied(before + RecordContributions(r[..j]))
    {
      t := AddLayer(t, r[j], before + RecordContributions(r[..j]));
      assert r[..j + 1][..j] == r[..j];
      Associative(before, RecordContributions(r[..j]), LayerContributions(r[j], Counted(r[j])));
    }
    assert r[..|r|] == r;
  }

  method AddLayer(t0: Tally, e: LayerEntry, ghost before: seq<Contribution>) returns (t: Tally)
    requires t0 == Tallied(before)
    ensures t == Tallied(before + LayerContributions(e, Counted(e)))
  {
    t := t0;
    if e.layer.None? || e.expertIds == [] {
      NothingCounted(before, e);
      return;
    }
    NothingYet(before, e);
    for i := 0 to Counted(e)
      invariant t == Tallied(before + LayerContributions(e, i))
    {
      t := AddExpert(t, e, i, before);
    }
  }

  method AddExpert(t0: Tally, e: LayerEntry, i: nat, ghost before: seq<Contribution>) returns (t: Tally)
    requires i < Counted(e) && e.layer.Some? && t0 == Tallied(before + LayerContributions(e, i))
    ensures t == Tallied(before + LayerContributions(e, i + 1))
  {
    LayerNext(before, e, i);
    t := t0;
    if e.weights == [] {
      t := Contribute(t, Contribution(e.layer.value, e.expertIds[i], 1.0));
    } else if e.weights[i].Some? {
      t := Contribute(t, Contribution(e.layer.value, e.expertIds[i], e.weights[i].value));
    }
  }

  lemma NothingYet(before: seq<Contribution>, e: LayerEntry)
    ensures before + LayerContributions(e, 0) == before
  {}

  lemma NothingCounted(before: seq<Contribution>, e: LayerEntry)
    requires e.layer.None? || e.expertIds == []
    ensures before + LayerContributions(e, Counted(e)) == before
  {}

  lemma LayerNext(before: seq<Contribution>, e: LayerEntry, i: nat)
    requires i < Counted(e) && e.layer.Some?
    ensures var (t, u) := (Tallied(before + LayerContributions(e, i)), Tallied(before + LayerContributions(e, i + 1)));
            u == if e.weights == [] then Contribute(t, Contribution(e.layer.value, e.expertIds[i], 1.0))
                 else if e.weights[i].Some? then Contribute(t, Contribution(e.layer.value, e.expertIds[i], e.weights[i].value))
                 else t
  {
    var sofar := LayerContributions(e, i);
    if e.weights == [] || e.weights[i].Some? {
      var c := Contribution(e.layer.value, e.expertIds[i], if e.weights == [] then 1.0 else e.weights[i].value);
      TalliedSnoc(before + sofar, c);
      Associative(before, sofar, [c]);
    } else {
      Associative(sofar, [], []);
    }
  }

  /** The total of a layer is the sum of its experts' weights, and each weight the sum of its contributions. */
  lemma {:induction false} TotalsAreSums(cs: seq<Contribution>, layer: int, id: int)
    ensures var t := Tallied(cs);
            && (layer in t.weights <==> layer in t.totals)
            && DistinctIds(CounterOf(t, layer))
            && Total(CounterOf(t, layer)) == TotalOf(t, layer)
            && WeightOf(CounterOf(t, layer), id) == Contributed(cs, layer, id)
    decreases |cs|
  {
    if cs != [] {
      var (front, c) := (cs[..|cs| - 1], cs[|cs| - 1]);
      TotalsAreSums(front, layer, id);
      if c.layer == layer {
        AddWeight(CounterOf(Tallied(front), layer), c.id, c.weight, id);
        AddDistinct(CounterOf(Tallied(front), layer), c.id, c.weight);
      }
    }
  }

  // ---------- Sorting by weight ----------

  /** Into a sorted counter, before all entries that do not weigh more. */
  function Insert(e: Entry, c: Counter): Counter {
    if c == [] || e.weight >= c[0].weight then [e] + c else [c[0]] + Insert(e, c[1..])
  }

  /** `most_common()`: by weight, heaviest first, equal weights in their old order. */
  function MostCommon(c: Counter): Counter {
    if c == [] then [] else Insert(c[0], MostCommon(c[1..]))
  }

  predicate Descending(c: Counter) {
    forall i, j :: 0 <= i < j < |c| ==> c[i].weight >= c[j].weight
  }

  /** The weight a set of experts has. */
  function WeightIn(c: Counter, group: set<int>): real {
    if c == [] then 0.0 else (if c[0].id in group then c[0].weight else 0.0) + WeightIn(c[1..], group)
  }

  /** How many experts of the set there are. */
  function CountIn(c: Counter, group: set<int>): nat {
    if c == [] then 0 else (if c[0].id in group then 1 else 0) + CountIn(c[1..], group)
  }

  lemma {:induction false} InsertSums(e: Entry, c: Counter, group: set<int>)
    ensures |Insert(e, c)| == |c| + 1 && Total(Insert(e, c)) == e.weight + Total(c)
    ensures WeightIn(Insert(e, c), group) == (if e.id in group then e.weight else 0.0) + WeightIn(c, group)
    ensures CountIn(Insert(e, c), group) == (if e.id in group then 1 else 0) + CountIn(c, group)
  {
    if c == [] || e.weight >= c[0].weight {
      Cons(e, c);
    } else {
      InsertSums(e, c[1..], group);
      Cons(c[0], Insert(e, c[1..]));
    }
  }

  /** Sorting keeps the number of experts, and the weight and the count of every group. */
  lemma {:induction false} MostCommonSums(c: Counter, group: set<int>)
    ensures |MostCommon(c)| == |c| && Total(MostCommon(c)) == Total(c)
    ensures WeightIn(MostCommon(c), group) == WeightIn(c, group)
    ensures CountIn(MostCommon(c), group) == CountIn(c, group)
  {
    if c != [] {
      MostCommonSums(c[1..], group);
      InsertSums(c[0], MostCommon(c[1..]), group);
    }
  }

  predicate AtMost(c: Counter, bound: real) {
    forall e :: e in c ==> e.weight <= bound
  }

  lemma DescendingCons(e: Entry, c: Counter)
    ensures Descending([e] + c) <==> Descending(c) && AtMost(c, e.weight)
  {
    var l := [e] + c;
    assert l[0] == e && forall i :: 0 <= i < |c| ==> l[i + 1] == c[i];
    if Descending(l) {
      forall i, j | 0 <= i < j < |c|
        ensures c[i].weight >= c[j].weight
      {
        assert l[i + 1].weight >= l[j + 1].weight;
      }
      forall x | x in c
        ensures x.weight <= e.weight
      {
        var i :| 0 <= i < |c| && c[i] == x;
        assert l[0].weight >= l[i + 1].weight;
      }
    }
  }

  lemma {:induction false} InsertElements(e: Entry, c: Counter, x: Entry)
    ensures x in Insert(e, c) <==> x == e || x in c
  {
    if c != [] && e.weight < c[0].weight {
      InsertElements(e, c[1..], x);
      assert c == [c[0]] + c[1..];
    }
  }

  lemma {:induction false} InsertIds(e: Entry, c: Counter, id: int)
    ensures Has(Insert(e, c), id) <==> e.id == id || Has(c, id)
  {
    HasCons(e, c, id);
    if c != [] && e.weight < c[0].weight {
      InsertIds(e, c[1..], id);
      assert c == [c[0]] + c[1..];
      HasCons(c[0], c[1..], id);
      HasCons(c[0], Insert(e, c[1..]), id);
    }
  }

  lemma {:induction false} InsertSorted(e: Entry, c: Counter)
    requires Descending(c)
    ensures Descending(Insert(e, c))
  {
    if c == [] || e.weight >= c[0].weight {
      DescendingCons(e, c);
    } else {
      assert c == [c[0]] + c[1..];
      DescendingCons(c[0], c[1..]);
      InsertSorted(e, c[1..]);
      forall x | x in Insert(e, c[1..])
        ensures x.weight <= c[0].weight
      {
        InsertElements(e, c[1..], x);
      }
      DescendingCons(c[0], Insert(e, c[1..]));
    }
  }

  lemma {:induction false} MostCommonSorted(c: Counter)
    ensures Descending(MostCommon(c))
  {
    if c != [] {
      MostCommonSorted(c[1..]);
      InsertSorted(c[0], MostCommon(c[1..]));
    }
  }

  /** Sorting keeps the entries. */
  lemma {:induction false} MostCommonElements(c: Counter, x: Entry)
    ensures x in MostCommon(c) <==> x in c
    ensures Has(MostCommon(c), x.id) <==> Has(c, x.id)
  {
    if c != [] {
      MostCommonElements(c[1..], x);
      InsertElements(c[0], MostCommon(c[1..]), x);
      InsertIds(c[0], MostCommon(c[1..]), x.id);
      assert c == [c[0]] + c[1..];
      HasCons(c[0], c[1..], x.id);
    }
  }

  function Ids(c: Counter): (s: seq<int>)
    ensures |s| == |c| && forall i :: 0 <= i < |c| ==> s[i] == c[i].id
  {
    seq(|c|, i requires 0 <= i < |c| => c[i].id)
  }

  /** The weight of the first `n` entries. */
  function PrefixWeight(c: Counter, n: nat): real
    requires n <= |c|
  {
    if n == 0 then 0.0 else PrefixWeight(c, n - 1) + c[n - 1].weight
  }

  // ---------- The two selections ----------

  method SelectByThreshold(c: Counter, total: real, threshold: real) returns (selected: seq<int>, cumulative: real)
    ensures total <= 0.0 ==> selected == [] && cumulative == 0.0
    ensures total > 0.0 ==>
              var (sorted, k) := (MostCommon(c), |selected|);
              && StopsAt(sorted, total, threshold, k)
              && selected == Ids(sorted[..k]) && cumulative == PrefixWeight(sorted, k) / total
  {
    selected, cumulative := [], 0.0;
    MostCommonSums(c, {});
    if total <= 0.0 {
      return;
    }
    var sorted := MostCommon(c);
    for i := 0 to |sorted|
      invariant selected == Ids(sorted[..i]) && cumulative == PrefixWeight(sorted, i) / total
      invariant forall j :: 0 < j <= i ==> PrefixWeight(sorted, j) / total < threshold
    {
      selected := selected + [sorted[i].id];
      DivideSum(PrefixWeight(sorted, i), sorted[i].weight, total);
      cumulative := cumulative + sorted[i].weight / total;
      if cumulative >= threshold {
        break;
      }
    }
  }

  method SelectByTopK(c: Counter, total: real, topk: int) returns (selected: seq<int>, cumulative: real)
    ensures total <= 0.0 ==> selected == [] && cumulative == 0.0
    ensures total > 0.0 ==>
              var (sorted, k) := (MostCommon(c), |selected|);
              && k == (if topk < 0 then 0 else if topk < |sorted| then topk else |sorted|)
              && selected == Ids(sorted[..k]) && cumulative == PrefixWeight(sorted, k) / total
  {
    selected, cumulative := [], 0.0;
    MostCommonSums(c, {});
    if total <= 0.0 {
      return;
    }
    var sorted := MostCommon(c);
    for i := 0 to |sorted|
      invariant selected == Ids(sorted[..i]) && cumulative == PrefixWeight(sorted, i) / total
      invariant i <= topk || i == 0
    {
      if i >= topk {
        break;
      }
      selected := selected + [sorted[i].id];
      DivideSum(PrefixWeight(sorted, i), sorted[i].weight, total);
      cumulative := cumulative + sorted[i].weight / total;
    }
  }

  lemma DivideSum(x: real, y: real, total: real)
    requires total != 0.0
    ensures (x + y) / total == x / total + y / total
  {}

  // ---------- Why the greedy selections are the best ----------

  predicate NonNegative(c: Counter) {
    forall i :: 0 <= i < |c| ==> c[i].weight >= 0.0
  }

  /** Exchange: no group weighs more than as many of the heaviest experts. */
  lemma {:induction false} NoGroupBeatsThePrefix(c: Counter, group: set<int>, n: nat)
    requires Descending(c) && n <= |c|
    ensures CountIn(c[..n], group) <= n
    ensures WeightIn(c[..n], group) <= PrefixWeight(c, CountIn(c[..n], group))
  {
    if n > 0 {
      NoGroupBeatsThePrefix(c, group, n - 1);
      InSnoc(c, group, n - 1);
    }
  }

  lemma InSnoc(c: Counter, group: set<int>, n: nat)
    requires n < |c|
    ensures WeightIn(c[..n + 1], group) == WeightIn(c[..n], group) + (if c[n].id in group then c[n].weight else 0.0)
    ensures CountIn(c[..n + 1], group) == CountIn(c[..n], group) + (if c[n].id in group then 1 else 0)
  {
    assert c[..n + 1] == c[..n] + [c[n]];
    InAppend(c[..n], [c[n]], group);
    assert [c[n]][1..] == [];
  }

  lemma {:induction false} InAppend(x: Counter, y: Counter, group: set<int>)
    ensures WeightIn(x + y, group) == WeightIn(x, group) + WeightIn(y, group)
    ensures CountIn(x + y, group) == CountIn(x, group) + CountIn(y, group)
  {
    if x == [] {
      assert x + y == y;
    } else {
      assert (x + y)[1..] == x[1..] + y;
      InAppend(x[1..], y, group);
    }
  }

  /** With distinct ids a group cannot be counted more often than it has members. */
  lemma {:induction false} CountedOnce(c: Counter, group: set<int>)
    requires DistinctIds(c)
    ensures CountIn(c, group) <= |group|
    decreases |c|
  {
    if c != [] {
      assert DistinctIds(c[1..]);
      if c[0].id in group {
        CountedOnce(c[1..], group - {c[0].id});
        assert |group - {c[0].id}| == |group| - 1;
        WithoutHead(c[1..], group, c[0].id);
      } else {
        CountedOnce(c[1..], group);
      }
    }
  }

  lemma {:induction false} WithoutHead(c: Counter, group: set<int>, id: int)
    requires forall i :: 0 <= i < |c| ==> c[i].id != id
    ensures CountIn(c, group - {id}) == CountIn(c, group)
  {
    if c != [] {
      WithoutHead(c[1..], group, id);
    }
  }

  lemma {:induction false} PrefixGrows(c: Counter, m: nat, n: nat)
    requires NonNegative(c) && m <= n <= |c|
    ensures PrefixWeight(c, m) <= PrefixWeight(c, n)
  {
    if m < n {
      PrefixGrows(c, m, n - 1);
    }
  }

  lemma {:induction false} PrefixOfAll(c: Counter, n: nat)
    requires n <= |c|
    ensures PrefixWeight(c, n) == Total(c[..n])
  {
    if n > 0 {
      PrefixOfAll(c, n - 1);
      assert c[..n] == c[..n - 1] + [c[n - 1]];
      TotalAppend(c[..n - 1], [c[n - 1]]);
      assert [c[n - 1]][1..] == [];
    }
  }

  lemma {:induction false} TotalAppend(x: Counter, y: Counter)
    ensures Total(x + y) == Total(x) + Total(y)
  {
    if x == [] {
      assert x + y == y;
    } else {
      assert (x + y)[1..] == x[1..] + y;
      TotalAppend(x[1..], y);
    }
  }

  function Members(s: seq<int>): set<int> { set x | x in s }

  /** The first `k` entries, as a group, weigh what they weigh together. */
  lemma {:induction false} PrefixAsGroup(c: Counter, k: nat, n: nat)
    requires DistinctIds(c) && k <= |c| && n <= |c|
    ensures WeightIn(c[..n], Members(Ids(c[..k]))) == PrefixWeight(c, if k < n then k else n)
  {
    if n > 0 {
      var group := Members(Ids(c[..k]));
      PrefixAsGroup(c, k, n - 1);
      InSnoc(c, group, n - 1);
      if n <= k {
        assert Ids(c[..k])[n - 1] == c[n - 1].id;
      }
    }
  }

  lemma {:induction false} SortedDistinct(c: Counter)
    requires DistinctIds(c)
    ensures DistinctIds(MostCommon(c))
  {
    if c != [] {
      assert c == [c[0]] + c[1..];
      DistinctCons(c[0], c[1..]);
      SortedDistinct(c[1..]);
      MostCommonElements(c[1..], c[0]);
      InsertDistinct(c[0], MostCommon(c[1..]));
    }
  }

  lemma {:induction false} InsertDistinct(e: Entry, c: Counter)
    requires DistinctIds(c) && !Has(c, e.id)
    ensures DistinctIds(Insert(e, c))
  {
    DistinctCons(e, c);
    if c != [] && e.weight < c[0].weight {
      assert c == [c[0]] + c[1..];
      DistinctCons(c[0], c[1..]);
      HasCons(c[0], c[1..], e.id);
      InsertDistinct(e, c[1..]);
      InsertIds(e, c[1..], c[0].id);
      DistinctCons(c[0], Insert(e, c[1..]));
    }
  }

  /** The share of the layer's weight that a group has. */
  function Share(c: Counter, group: set<int>, total: real): real
    requires total > 0.0
  {
    WeightIn(c, group) / total
  }

  lemma Divide(x: real, y: real, total: real)
    requires total > 0.0
    ensures x <= y ==> x / total <= y / total
  {}

  /** What the weight of a group is bounded by, on the counter itself. */
  lemma GroupBound(c: Counter, group: set<int>, total: real)
    requires DistinctIds(c) && total > 0.0
    ensures CountIn(c, group) <= |group| && CountIn(c, group) <= |MostCommon(c)|
    ensures Share(c, group, total) <= PrefixWeight(MostCommon(c), CountIn(c, group)) / total
  {
    var sorted := MostCommon(c);
    MostCommonSums(c, group);
    MostCommonSorted(c);
    CountedOnce(c, group);
    NoGroupBeatsThePrefix(sorted, group, |sorted|);
    assert sorted[..|sorted|] == sorted;
    Divide(WeightIn(c, group), PrefixWeight(sorted, CountIn(c, group)), total);
  }

  lemma SelectedShare(c: Counter, k: nat, total: real)
    requires DistinctIds(c) && total > 0.0 && k <= |MostCommon(c)|
    ensures Share(c, Members(Ids(MostCommon(c)[..k])), total) == PrefixWeight(MostCommon(c), k) / total
  {
    var sorted := MostCommon(c);
    MostCommonSums(c, Members(Ids(sorted[..k])));
    SortedDistinct(c);
    PrefixAsGroup(sorted, k, |sorted|);
    assert sorted[..|sorted|] == sorted;
  }

  lemma WholeShare(x: real, total: real)
    requires x == total > 0.0
    ensures x / total == 1.0
  {}

  /** How far the threshold loop goes. */
  predicate StopsAt(sorted: Counter, total: real, threshold: real, k: nat)
    requires total > 0.0
  {
    && k <= |sorted|
    && (k == |sorted| || (k > 0 && PrefixWeight(sorted, k) / total >= threshold))
    && forall j :: 0 < j < k ==> PrefixWeight(sorted, j) / total < threshold
  }

  /** The threshold selection reaches the threshold, as the layer's total is the sum of its weights. */
  lemma ThresholdGroupReaches(c: Counter, total: real, threshold: real, k: nat)
    requires DistinctIds(c) && total == Total(c) > 0.0 && threshold <= 1.0
    requires StopsAt(MostCommon(c), total, threshold, k)
    ensures Share(c, Members(Ids(MostCommon(c)[..k])), total) >= threshold
  {
    SelectedShare(c, k, total);
    if k == |MostCommon(c)| {
      MostCommonSums(c, {});
      PrefixOfAll(MostCommon(c), k);
      assert MostCommon(c)[..k] == MostCommon(c);
      WholeShare(PrefixWeight(MostCommon(c), k), total);
    }
  }

  /** Every group that reaches the threshold has at least as many experts as the selection. */
  lemma ThresholdGroupIsSmallest(c: Counter, total: real, threshold: real, k: nat, group: set<int>)
    requires DistinctIds(c) && total > 0.0 && 0.0 < threshold
    requires StopsAt(MostCommon(c), total, threshold, k)
    requires Share(c, group, total) >= threshold
    ensures |group| >= k
  {
    GroupBound(c, group, total);
    assert PrefixWeight(MostCommon(c), 0) / total == 0.0;
  }

  /** No group of at most `topk` experts has a larger share than the top-k selection. */
  lemma TopKGroupIsStrongest(c: Counter, total: real, topk: nat, k: nat, group: set<int>)
    requires DistinctIds(c) && NonNegative(c) && total > 0.0 && |group| <= topk
    requires k == if topk < |MostCommon(c)| then topk else |MostCommon(c)|
    ensures Share(c, group, total) <= Share(c, Members(Ids(MostCommon(c)[..k])), total)
  {
    var sorted := MostCommon(c);
    SelectedShare(c, k, total);
    GroupBound(c, group, total);
    SortedNonNegative(c);
    PrefixGrows(sorted, CountIn(c, group), k);
    Divide(PrefixWeight(sorted, CountIn(c, group)), PrefixWeight(sorted, k), total);
  }

  lemma SortedNonNegative(c: Counter)
    requires NonNegative(c)
    ensures NonNegative(MostCommon(c))
  {
    forall i | 0 <= i < |MostCommon(c)|
      ensures MostCommon(c)[i].weight >= 0.0
    {
      MostCommonElements(c, MostCommon(c)[i]);
    }
  }

  /** On the accumulated weights of a layer: the selection reaches the threshold, and no group that does is smaller. */
  lemma LayerGroupIsSmallest(cs: seq<Contribution>, layer: int, threshold: real, k: nat)
    requires TotalOf(Tallied(cs), layer) > 0.0 && 0.0 < threshold <= 1.0
    requires StopsAt(MostCommon(CounterOf(Tallied(cs), layer)), TotalOf(Tallied(cs), layer), threshold, k)
    ensures var (c, total) := (CounterOf(Tallied(cs), layer), TotalOf(Tallied(cs), layer));
            && Share(c, Members(Ids(MostCommon(c)[..k])), total) >= threshold
            && forall group :: Share(c, group, total) >= threshold ==> |group| >= k
  {
    var (c, total) := (CounterOf(Tallied(cs), layer), TotalOf(Tallied(cs), layer));
    TotalsAreSums(cs, layer, 0);
    ThresholdGroupReaches(c, total, threshold, k);
    forall group | Share(c, group, total) >= threshold
      ensures |group| >= k
    {
      ThresholdGroupIsSmallest(c, total, threshold, k, group);
    }
  }

  // ---------- Weights in the fields of the records ----------

  /** What position `i` of a layer weighs: one where the layer has no weights; nothing without a numeric weight of its own. */
  function PositionWeight(e: LayerEntry, i: nat): real {
    if e.weights == [] then 1.0 else if i < |e.weights| && e.weights[i].Some? then e.weights[i].value else 0.0
  }

  function EntryWeight(e: LayerEntry, id: int, n: nat): real
    requires n <= |e.expertIds|
  {
    if n == 0 then 0.0 else EntryWeight(e, id, n - 1) + if e.expertIds[n - 1] == id then PositionWeight(e, n - 1) else 0.0
  }

  function RecordWeight(r: Record, layer: int, id: int): real {
    if r == [] then 0.0
    else
      var e := r[|r| - 1];
      RecordWeight(r[..|r| - 1], layer, id) + if e.layer == Some(layer) then EntryWeight(e, id, |e.expertIds|) else 0.0
  }

  function RecordsWeight(records: seq<Record>, layer: int, id: int): real {
    if records == [] then 0.0
    else RecordsWeight(records[..|records| - 1], layer, id) + RecordWeight(records[|records| - 1], layer, id)
  }

  lemma {:induction false} ContributedAppend(xs: seq<Contribution>, ys: seq<Contribution>, layer: int, id: int)
    ensures Contributed(xs + ys, layer, id) == Contributed(xs, layer, id) + Contributed(ys, layer, id)
    decreases |ys|
  {
    if ys == [] {
      assert xs + ys == xs;
    } else {
      assert (xs + ys)[..|xs + ys| - 1] == xs + ys[..|ys| - 1];
      ContributedAppend(xs, ys[..|ys| - 1], layer, id);
    }
  }

  lemma ContributedSnoc(cs: seq<Contribution>, c: Contribution, layer: int, id: int)
    ensures Contributed(cs + [c], layer, id) == Contributed(cs, layer, id) + if c.layer == layer && c.id == id then c.weight else 0.0
  {
    assert (cs + [c])[..|cs|] == cs;
  }

  lemma PositionContributes(e: LayerEntry, layer: int, id: int, n: nat)
    requires n < Counted(e)
    ensures Contributed(LayerContributions(e, n + 1), layer, id) == Contributed(LayerContributions(e, n), layer, id) +
              if e.layer == Some(layer) && e.expertIds[n] == id then PositionWeight(e, n) else 0.0
  {
    var before := LayerContributions(e, n);
    if e.layer.Some? && (e.weights == [] || e.weights[n].Some?) {
      ContributedSnoc(before, Contribution(e.layer.value, e.expertIds[n], PositionWeight(e, n)), layer, id);
    } else {
      assert before + [] == before;
    }
  }

  lemma {:induction false} EntryContributes(e: LayerEntry, layer: int, id: int, n: nat)
    requires n <= |e.expertIds|
    ensures var m := if n < Counted(e) then n else Counted(e);
            Contributed(LayerContributions(e, m), layer, id) == if e.layer == Some(layer) then EntryWeight(e, id, n) else 0.0
    decreases n
  {
    if n > 0 {
      EntryContributes(e, layer, id, n - 1);
      if n <= Counted(e) {
        PositionContributes(e, layer, id, n - 1);
      }
    }
  }

  lemma {:induction false} RecordContributes(r: Record, layer: int, id: int)
    ensures Contributed(RecordContributions(r), layer, id) == RecordWeight(r, layer, id)
  {
    if r != [] {
      var e := r[|r| - 1];
      RecordContributes(r[..|r| - 1], layer, id);
      EntryContributes(e, layer, id, |e.expertIds|);
      ContributedAppend(RecordContributions(r[..|r| - 1]), LayerContributions(e, Counted(e)), layer, id);
    }
  }

  /** The accumulated weight of an expert is the sum of what its positions weigh, over all records and all their entries for the layer. */
  lemma {:induction false} WeightsAreSumsOfPositions(records: seq<Record>, layer: int, id: int)
    ensures WeightOf(CounterOf(Tallied(Contributions(records)), layer), id) == RecordsWeight(records, layer, id)
  {
    TotalsAreSums(Contributions(records), layer, id);
    RecordsContribute(records, layer, id);
  }

  lemma {:induction false} RecordsContribute(records: seq<Record>, layer: int, id: int)
    ensures Contributed(Contributions(records), layer, id) == RecordsWeight(records, layer, id)
  {
    if records != [] {
      RecordsContribute(records[..|records| - 1], layer, id);
      RecordContributes(records[|records| - 1], layer, id);
      ContributedAppend(Contributions(records[..|records| - 1]), RecordContributions(records[|records| - 1]), layer, id);
    }
  }

  // ---------- Equal weights ----------

  function OfWeight(c: Counter, weight: real): Counter {
    if c == [] then [] else (if c[0].weight == weight then [c[0]] else []) + OfWeight(c[1..], weight)
  }

  lemma {:induction false} InsertOfWeight(e: Entry, c: Counter, weight: real)
    ensures OfWeight(Insert(e, c), weight) == (if e.weight == weight then [e] else []) + OfWeight(c, weight)
  {
    if c == [] || e.weight >= c[0].weight {
      Cons(e, c);
    } else {
      Cons(c[0], Insert(e, c[1..]));
      InsertOfWeight(e, c[1..], weight);
    }
  }

  /** Experts of equal weight stay in the order in which they were first seen. */
  lemma {:induction false} MostCommonIsStable(c: Counter, weight: real)
    ensures OfWeight(MostCommon(c), weight) == OfWeight(c, weight)
  {
    if c != [] {
      MostCommonIsStable(c[1..], weight);
      InsertOfWeight(c[0], MostCommon(c[1..]), weight);
    }
  }
}
