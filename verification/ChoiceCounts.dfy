/** What the accumulated counts and weights are, in the fields of the records themselves. */
module ChoiceCounts {
  import opened Options
  import opened Alignment

  /** A record that is counted: it has layers, and neither its output token nor, without one, its first input token is filtered out. */
  predicate Kept(r: Record, eos: set<int>) {
    && r.topkIds != []
    && (r.outputTokenId.Some? ==> r.outputTokenId.value !in eos)
    && (r.outputTokenId.None? && r.inputIds != [] ==> r.inputIds[0] !in eos)
  }

  function Flat<T>(parts: seq<seq<T>>): seq<T> {
    if parts == [] then [] else Flat(parts[..|parts| - 1]) + parts[|parts| - 1]
  }

  /** All expert ids listed in a layer of a record, batch by batch. */
  function IdsIn(r: Record, layer: nat): seq<int> {
    if layer < |r.topkIds| then Flat(r.topkIds[layer]) else []
  }

  /** The ids of a batch with their weights; none unless there is a weight for each. */
  function PairsOf(r: Record, layer: nat, batch: nat): seq<(int, real)>
    requires layer < |r.topkIds| && batch < |r.topkIds[layer]|
  {
    var ids := r.topkIds[layer][batch];
    if layer < |r.topkWeights| && batch < |r.topkWeights[layer]| && |r.topkWeights[layer][batch]| == |ids|
    then seq(|ids|, p requires 0 <= p < |ids| => (ids[p], r.topkWeights[layer][batch][p]))
    else []
  }

  function PairsIn(r: Record, layer: nat): seq<(int, real)> {
    if layer < |r.topkIds|
    then Flat(seq(|r.topkIds[layer]|, batch requires 0 <= batch < |r.topkIds[layer]| => PairsOf(r, layer, batch)))
    else []
  }

  /** All ids that the counted records list in a layer. */
  function Chosen(records: seq<Record>, eos: set<int>, layer: nat): seq<int> {
    Flat(seq(|records|, i requires 0 <= i < |records| => if Kept(records[i], eos) then IdsIn(records[i], layer) else []))
  }

  function Weighted(records: seq<Record>, eos: set<int>, layer: nat): seq<(int, real)> {
    Flat(seq(|records|, i requires 0 <= i < |records| => if Kept(records[i], eos) then PairsIn(records[i], layer) else []))
  }

  /** The sum of the weights paired with an id. */
  function SumFor(pairs: seq<(int, real)>, id: int): real {
    if pairs == [] then 0.0
    else SumFor(pairs[..|pairs| - 1], id) + if pairs[|pairs| - 1].0 == id then pairs[|pairs| - 1].1 else 0.0
  }

  // ---------- Lists of effects ----------

  lemma {:induction false} EffectsAppend(xs: seq<Effect>, ys: seq<Effect>, cell: Cell)
    ensures Occurrences(xs + ys, cell) == Occurrences(xs, cell) + Occurrences(ys, cell)
    ensures WeightOf(xs + ys, cell) == WeightOf(xs, cell) + WeightOf(ys, cell)
    decreases |ys|
  {
    if ys == [] {
      assert xs + ys == xs;
    } else {
      assert (xs + ys)[..|xs + ys| - 1] == xs + ys[..|ys| - 1];
      EffectsAppend(xs, ys[..|ys| - 1], cell);
    }
  }

  lemma {:induction false} SumForAppend(xs: seq<(int, real)>, ys: seq<(int, real)>, id: int)
    ensures SumFor(xs + ys, id) == SumFor(xs, id) + SumFor(ys, id)
    decreases |ys|
  {
    if ys == [] {
      assert xs + ys == xs;
    } else {
      assert (xs + ys)[..|xs + ys| - 1] == xs + ys[..|ys| - 1];
      SumForAppend(xs, ys[..|ys| - 1], id);
    }
  }

  lemma OneEffect(e: Effect, cell: Cell)
    ensures Occurrences([e], cell) == if e == Hit(cell) then 1 else 0
    ensures WeightOf([e], cell) == if e.Weigh? && e.cell == cell then e.weight else 0.0
  {
    assert [e][..0] == [];
  }

  /** What a list of effects adds to a cell: a number of choices and a weight. */
  ghost predicate Adds(es: seq<Effect>, cell: Cell, ids: seq<int>, pairs: seq<(int, real)>) {
    if 0 <= cell.1 < 256 then Occurrences(es, cell) == multiset(ids)[cell.1] && WeightOf(es, cell) == SumFor(pairs, cell.1)
    else Occurrences(es, cell) == 0 && WeightOf(es, cell) == 0.0
  }

  lemma AddsAppend(es: seq<Effect>, fs: seq<Effect>, cell: Cell, ids: seq<int>, more: seq<int>, pairs: seq<(int, real)>, others: seq<(int, real)>)
    requires Adds(es, cell, ids, pairs) && Adds(fs, cell, more, others)
    ensures Adds(es + fs, cell, ids + more, pairs + others)
  {
    EffectsAppend(es, fs, cell);
    SumForAppend(pairs, others, cell.1);
  }

  lemma AddsNothing(cell: Cell)
    ensures Adds([], cell, [], [])
  {}

  /** One position of a batch. */
  lemma HitAdds(layer: nat, id: int, cell: Cell)
    ensures Adds(if 0 <= id < 256 then [Hit((layer, id))] else [], cell, if cell.0 == layer then [id] else [], [])
  {
    OneEffect(Hit((layer, id)), cell);
  }

  lemma WeighAdds(layer: nat, id: int, w: real, cell: Cell)
    ensures Adds(if 0 <= id < 256 then [Weigh((layer, id), w)] else [], cell, [], if cell.0 == layer then [(id, w)] else [])
  {
    OneEffect(Weigh((layer, id), w), cell);
    OnePair(id, w, cell.1);
  }

  lemma OnePair(id: int, w: real, other: int)
    ensures SumFor([(id, w)], other) == if id == other then w else 0.0
  {
    assert [(id, w)][..0] == [];
  }

  lemma {:induction false} HitsAdd(layer: nat, ids: seq<int>, n: nat, cell: Cell)
    requires n <= |ids|
    ensures Adds(Hits(layer, ids, n), cell, if cell.0 == layer then ids[..n] else [], [])
  {
    if n == 0 {
      AddsNothing(cell);
    } else {
      var (id, here) := (ids[n - 1], cell.0 == layer);
      HitsAdd(layer, ids, n - 1, cell);
      HitAdds(layer, id, cell);
      AddsAppend(Hits(layer, ids, n - 1), if 0 <= id < 256 then [Hit((layer, id))] else [], cell,
                 if here then ids[..n - 1] else [], if here then [id] else [], [], []);
      assert ids[..n] == ids[..n - 1] + [id];
    }
  }

  function Zip(ids: seq<int>, ws: seq<real>): seq<(int, real)>
    requires |ids| == |ws|
  {
    seq(|ids|, p requires 0 <= p < |ids| => (ids[p], ws[p]))
  }

  lemma {:induction false} WeighingsAdd(layer: nat, ids: seq<int>, ws: seq<real>, n: nat, cell: Cell)
    requires n <= |ids| == |ws|
    ensures Adds(Weighings(layer, ids, ws, n), cell, [], if cell.0 == layer then Zip(ids, ws)[..n] else [])
  {
    if n == 0 {
      AddsNothing(cell);
    } else {
      var (id, w, here) := (ids[n - 1], ws[n - 1], cell.0 == layer);
      WeighingsAdd(layer, ids, ws, n - 1, cell);
      WeighAdds(layer, id, w, cell);
      AddsAppend(Weighings(layer, ids, ws, n - 1), if 0 <= id < 256 then [Weigh((layer, id), w)] else [], cell,
                 [], [], if here then Zip(ids, ws)[..n - 1] else [], if here then [(id, w)] else []);
      assert Zip(ids, ws)[..n] == Zip(ids, ws)[..n - 1] + [(id, w)];
    }
  }

  lemma BatchAdds(r: Record, layer: nat, batch: nat, cell: Cell)
    requires layer < |r.topkIds| && batch < |r.topkIds[layer]|
    ensures Adds(BatchEffects(r, layer, batch), cell, if cell.0 == layer then r.topkIds[layer][batch] else [],
                 if cell.0 == layer then PairsOf(r, layer, batch) else [])
  {
    var (ids, ws) := (r.topkIds[layer][batch], BatchWeights(r, layer, batch));
    var (hits, pairs) := (Hits(layer, ids, |ids|), PairsOf(r, layer, batch));
    HitsAdd(layer, ids, |ids|, cell);
    assert ids[..|ids|] == ids;
    if ws != [] && |ws| == |ids| {
      WeighingsAdd(layer, ids, ws, |ws|, cell);
      assert Zip(ids, ws)[..|ws|] == Zip(ids, ws) == pairs;
      var (here, there) := (if cell.0 == layer then ids else [], if cell.0 == layer then pairs else []);
      AddsAppend(hits, Weighings(layer, ids, ws, |ws|), cell, here, [], [], there);
      assert here + [] == here && [] + there == there;
    } else {
      assert pairs == [] && hits + [] == hits;
    }
  }

  lemma BatchAddsElsewhere(r: Record, layer: nat, batch: nat, cell: Cell)
    requires layer < |r.topkIds| && batch < |r.topkIds[layer]| && cell.0 != layer
    ensures Occurrences(BatchEffects(r, layer, batch), cell) == 0 && WeightOf(BatchEffects(r, layer, batch), cell) == 0.0
  {
    BatchAdds(r, layer, batch, cell);
  }

  lemma FlatSnoc<T>(parts: seq<seq<T>>, part: seq<T>)
    ensures Flat(parts + [part]) == Flat(parts) + part
  {
    assert (parts + [part])[..|parts|] == parts;
  }

  lemma FlatTake<T>(parts: seq<seq<T>>, n: nat)
    requires n < |parts|
    ensures Flat(parts[..n + 1]) == Flat(parts[..n]) + parts[n]
  {
    assert parts[..n + 1] == parts[..n] + [parts[n]];
    FlatSnoc(parts[..n], parts[n]);
  }

  function PairLists(r: Record, layer: nat): seq<seq<(int, real)>>
    requires layer < |r.topkIds|
  {
    seq(|r.topkIds[layer]|, batch requires 0 <= batch < |r.topkIds[layer]| => PairsOf(r, layer, batch))
  }

  lemma {:induction false} LayerAddsHere(r: Record, layer: nat, n: nat, cell: Cell)
    requires layer < |r.topkIds| && n <= |r.topkIds[layer]| && cell.0 == layer
    ensures Adds(LayerEffects(r, layer, n), cell, Flat(r.topkIds[layer][..n]), Flat(PairLists(r, layer)[..n]))
  {
    if n == 0 {
      AddsNothing(cell);
    } else {
      var (ids, pairs) := (r.topkIds[layer], PairLists(r, layer));
      LayerAddsHere(r, layer, n - 1, cell);
      BatchAdds(r, layer, n - 1, cell);
      AddsAppend(LayerEffects(r, layer, n - 1), BatchEffects(r, layer, n - 1), cell,
                 Flat(ids[..n - 1]), ids[n - 1], Flat(pairs[..n - 1]), pairs[n - 1]);
      FlatTake(ids, n - 1);
      FlatTake(pairs, n - 1);
    }
  }

  lemma {:induction false} LayerAddsElsewhere(r: Record, layer: nat, n: nat, cell: Cell)
    requires layer < |r.topkIds| && n <= |r.topkIds[layer]| && cell.0 != layer
    ensures Occurrences(LayerEffects(r, layer, n), cell) == 0 && WeightOf(LayerEffects(r, layer, n), cell) == 0.0
  {
    if n > 0 {
      LayerAddsElsewhere(r, layer, n - 1, cell);
      BatchAddsElsewhere(r, layer, n - 1, cell);
      EffectsAppend(LayerEffects(r, layer, n - 1), BatchEffects(r, layer, n - 1), cell);
    }
  }

  lemma LayerAdds(r: Record, layer: nat, cell: Cell)
    requires layer < |r.topkIds|
    ensures Adds(LayerEffects(r, layer, |r.topkIds[layer]|), cell,
                 if cell.0 == layer then IdsIn(r, layer) else [], if cell.0 == layer then PairsIn(r, layer) else [])
  {
    var n := |r.topkIds[layer]|;
    if cell.0 == layer {
      LayerAddsHere(r, layer, n, cell);
      assert r.topkIds[layer][..n] == r.topkIds[layer] && PairLists(r, layer)[..n] == PairLists(r, layer);
    } else {
      LayerAddsElsewhere(r, layer, n, cell);
    }
  }

  function Below<T>(s: seq<T>, layer: nat, n: nat): seq<T> { if layer < n then s else [] }

  lemma {:induction false} RecordAdds(r: Record, n: nat, cell: Cell)
    requires n <= |r.topkIds|
    ensures Adds(RecordEffects(r, n), cell, Below(IdsIn(r, cell.0), cell.0, n), Below(PairsIn(r, cell.0), cell.0, n))
  {
    if n == 0 {
      AddsNothing(cell);
    } else {
      var (layer, ids, pairs) := (n - 1, IdsIn(r, cell.0), PairsIn(r, cell.0));
      var here := cell.0 == layer;
      RecordAdds(r, layer, cell);
      LayerAdds(r, layer, cell);
      AddsAppend(RecordEffects(r, layer), LayerEffects(r, layer, |r.topkIds[layer]|), cell,
                 Below(ids, cell.0, layer), if here then ids else [], Below(pairs, cell.0, layer), if here then pairs else []);
      assert Below(ids, cell.0, layer) + (if here then ids else []) == Below(ids, cell.0, n);
      assert Below(pairs, cell.0, layer) + (if here then pairs else []) == Below(pairs, cell.0, n);
    }
  }

  lemma {:induction false} EffectsAdd(records: seq<Record>, eos: set<int>, cell: Cell)
    ensures Adds(EffectsOf(records, eos), cell, Chosen(records, eos, cell.0), Weighted(records, eos, cell.0))
    decreases |records|
  {
    if records != [] {
      var (front, r) := (records[..|records| - 1], records[|records| - 1]);
      var keep := Kept(r, eos);
      var (ids, pairs) := (if keep then IdsIn(r, cell.0) else [], if keep then PairsIn(r, cell.0) else []);
      EffectsAdd(front, eos, cell);
      RecordAdds(r, |r.topkIds|, cell);
      assert Below(IdsIn(r, cell.0), cell.0, |r.topkIds|) == IdsIn(r, cell.0) && Below(PairsIn(r, cell.0), cell.0, |r.topkIds|) == PairsIn(r, cell.0);
      ChosenLast(records, eos, cell.0);
      AddsAppend(EffectsOf(front, eos), if keep then RecordEffects(r, |r.topkIds|) else [], cell,
                 Chosen(front, eos, cell.0), ids, Weighted(front, eos, cell.0), pairs);
    }
  }

  lemma ChosenLast(records: seq<Record>, eos: set<int>, layer: nat)
    requires records != []
    ensures var (front, r) := (records[..|records| - 1], records[|records| - 1]);
            && Chosen(records, eos, layer) == Chosen(front, eos, layer) + (if Kept(r, eos) then IdsIn(r, layer) else [])
            && Weighted(records, eos, layer) == Weighted(front, eos, layer) + (if Kept(r, eos) then PairsIn(r, layer) else [])
  {
    var front := records[..|records| - 1];
    var ids := seq(|records|, i requires 0 <= i < |records| => if Kept(records[i], eos) then IdsIn(records[i], layer) else []);
    var pairs := seq(|records|, i requires 0 <= i < |records| => if Kept(records[i], eos) then PairsIn(records[i], layer) else []);
    assert ids[..|front|] == seq(|front|, i requires 0 <= i < |front| => if Kept(front[i], eos) then IdsIn(front[i], layer) else []);
    assert pairs[..|front|] == seq(|front|, i requires 0 <= i < |front| => if Kept(front[i], eos) then PairsIn(front[i], layer) else []);
  }

  /**
  The count of an expert in a layer is how often the counted records list it there, its weight the sum of the weights at those places
  that have one. Ids outside 0 to 255 are never counted.
  */
  lemma CountersCountPlaces(records: seq<Record>, eos: set<int>, layer: nat, id: int)
    ensures var totals := Analyze(NoAnalysis(), records, eos).totals;
            if 0 <= id < 256 then
              && CountAt(totals, (layer, id)) == multiset(Chosen(records, eos, layer))[id]
              && WeightAt(totals, (layer, id)) == SumFor(Weighted(records, eos, layer), id)
            else CountAt(totals, (layer, id)) == 0 && WeightAt(totals, (layer, id)) == 0.0
  {
    CountersCountChoices(records, eos, (layer, id));
    EffectsAdd(records, eos, (layer, id));
  }

  /** One more record: counted as processed exactly when it is kept; a skipped one changes no count and no weight. */
  lemma OneMoreRecord(records: seq<Record>, r: Record, eos: set<int>)
    ensures var (a, more) := (Analyze(NoAnalysis(), records, eos), Analyze(NoAnalysis(), records + [r], eos));
            if Kept(r, eos) then more.processed == a.processed + 1 && more.skipped == a.skipped
            else more == a.(skipped := a.skipped + 1)
  {
    assert (records + [r])[..|records|] == records;
  }

  /** A record aligned with a token is kept exactly when that token is not filtered out and the record has layers, whatever its input was. */
  lemma AlignedIsKept(tok: Tokenizer, info: TokenInfo, records: seq<Record>, i: nat, eos: set<int>)
    requires i < |AlignFrom(tok, info, records, 0)|
    ensures i < |info.tokens| && i < |records|
    ensures Kept(AlignFrom(tok, info, records, 0)[i], eos) <==> info.tokens[i] !in eos && records[i].topkIds != []
  {}

  /** There are as many aligned records as both tokens and records, and besides the token each keeps what it held. */
  lemma AlignedKeepsChoices(tok: Tokenizer, results: seq<InferenceResult>, records: seq<Record>, i: nat)
    ensures var aligned := AlignFrom(tok, InfoOf(results), records, 0);
            && |aligned| == (if |InfoOf(results).tokens| < |records| then |InfoOf(results).tokens| else |records|)
            && (i < |aligned| ==>
                  && aligned[i].topkIds == records[i].topkIds && aligned[i].topkWeights == records[i].topkWeights
                  && aligned[i].inputIds == records[i].inputIds
                  && aligned[i].outputToken == (if tok.NoTokenizer? then None else tok.decode(InfoOf(results).tokens[i])))
  {}

  /** The prompt of a request is what its user said first. */
  lemma {:induction false} UserPromptIsFirst(messages: seq<ChatMessage>, k: nat)
    requires k <= |messages| && forall i :: 0 <= i < k ==> messages[i].role != "user"
    ensures k < |messages| && messages[k].role == "user" ==> UserPrompt(messages) == messages[k].content
    ensures k == |messages| ==> UserPrompt(messages) == ""
  {
    if k > 0 {
      UserPromptIsFirst(messages[1..], k - 1);
    }
  }

  /** An aligned record carries the prompt of its request. */
  lemma AlignedPrompt(tok: Tokenizer, results: seq<InferenceResult>, records: seq<Record>, i: nat)
    requires i < |AlignFrom(tok, InfoOf(results), records, 0)|
    ensures var r := AlignFrom(tok, InfoOf(results), records, 0)[i];
            r.requestId.Some? && r.requestId.value < |results| && r.prompt == UserPrompt(results[r.requestId.value].messages)
  {
    AlignedRecordIsRight(tok, results, records, i);
    var k := AlignFrom(tok, InfoOf(results), records, 0)[i].requestId.value;
    PromptOfRequest(results, k);
  }

  lemma {:induction false} PromptOfRequest(results: seq<InferenceResult>, k: nat)
    requires k < |results|
    ensures |InfoOf(results).prompts| == |results|
    ensures InfoOf(results).prompts[k] == if results[k].tokenIds == [] then "" else UserPrompt(results[k].messages)
    decreases |results|
  {
    BoundariesEnd(results[..|results| - 1]);
    if k < |results| - 1 {
      PromptOfRequest(results[..|results| - 1], k);
    }
  }
}
