/** Aligning the records of expert choices with the tokens of the requests, and counting the choices: at once, or file by file. */
module Alignment {

  import opened Options

  datatype ChatMessage = ChatMessage(role: string, content: string)

  datatype InferenceResult = InferenceResult(tokenIds: seq<int>, messages: seq<ChatMessage>)

  /** A record of one token; the middle fields are filled in by the alignment. */
  datatype Record = Record(
    inputIds: seq<int>,
    outputTokenId: Option<int>,
    outputToken: Option<string>,
    prompt: string,
    requestId: Option<nat>,
    tokenIndex: Option<nat>,
    topkIds: seq<seq<seq<int>>>,
    topkWeights: seq<seq<seq<real>>>)

  /** No tokenizer, or one that may fail to decode. */
  datatype Tokenizer = NoTokenizer | Decoding(decode: int -> Option<string>)

  // ---------- Tokens and the boundaries of requests ----------

  datatype TokenInfo = TokenInfo(tokens: seq<int>, boundaries: seq<(nat, nat)>, prompts: seq<string>)

  /** The content of the first message of the user. */
  function UserPrompt(messages: seq<ChatMessage>): string {
    if messages == [] then ""
    else if messages[0].role == "user" then messages[0].content
    else UserPrompt(messages[1..])
  }

  function InfoOf(results: seq<InferenceResult>): TokenInfo {
    if results == [] then TokenInfo([], [], [])
    else
      var (info, r) := (InfoOf(results[..|results| - 1]), results[|results| - 1]);
      TokenInfo(
        info.tokens + r.tokenIds,
        info.boundaries + [(|info.tokens|, |info.tokens| + |r.tokenIds|)],
        info.prompts + [if r.tokenIds == [] then "" else UserPrompt(r.messages)])
  }

  /** How many requests are processed. */
  function Limit(results: seq<InferenceResult>, numRequests: Option<int>): nat {
    if numRequests.None? || numRequests.value > |results| then |results|
    else if numRequests.value < 0 then 0
    else numRequests.value
  }

  method PrepareTokenInfo(results: seq<InferenceResult>, numRequests: Option<int>) returns (info: TokenInfo)
    ensures info == InfoOf(results[..Limit(results, numRequests)])
    ensures |info.boundaries| == match numRequests
                                 case None => |results|
                                 case Some(k) => if k < 0 then 0 else if k < |results| then k else |results|
  {
    var n := Limit(results, numRequests);
    var tokens: seq<int>, boundaries: seq<(nat, nat)>, prompts: seq<string> := [], [], [];
    var current := 0;
    for i := 0 to n
      invariant TokenInfo(tokens, boundaries, prompts) == InfoOf(results[..i]) && current == |tokens|
    {
      assert results[..i + 1][..i] == results[..i];
      var ids := results[i].tokenIds;
      if ids == [] {
        boundaries := boundaries + [(current, current)];
        prompts := prompts + [""];
        assert tokens + ids == tokens;
      } else {
        prompts := prompts + [UserPrompt(results[i].messages)];
        var start := current;
        tokens := tokens + ids;
        current := current + |ids|;
        boundaries := boundaries + [(start, current)];
      }
    }
    info := TokenInfo(tokens, boundaries, prompts);
    BoundariesEnd(results[..n]);
  }

  predicate Inside(boundary: (nat, nat), index: nat) {
    boundary.0 <= index < boundary.1
  }

  /** Token `index` is a token of request `k`, and of no other. */
  ghost predicate Owns(results: seq<InferenceResult>, k: nat, index: nat)
    requires |InfoOf(results).boundaries| == |results| && k < |results| && index < |InfoOf(results).tokens|
  {
    var (info, boundary) := (InfoOf(results), InfoOf(results).boundaries[k]);
    && Inside(boundary, index)
    && (forall j :: 0 <= j < |results| && Inside(info.boundaries[j], index) ==> j == k)
    && boundary.1 - boundary.0 == |results[k].tokenIds|
    && info.tokens[index] == results[k].tokenIds[index - boundary.0]
  }

  /** Each token index lies in exactly one request, and there it is that request's token. */
  lemma {:induction false} ExactlyOneRequest(results: seq<InferenceResult>, index: nat)
    requires index < |InfoOf(results).tokens|
    ensures |InfoOf(results).boundaries| == |InfoOf(results).prompts| == |results|
    ensures exists k: nat :: k < |results| && Owns(results, k, index)
    decreases |results|
  {
    BoundariesEnd(results);
    var last := |results| - 1;
    BoundariesEnd(results[..last]);
    if index < |InfoOf(results[..last]).tokens| {
      ExactlyOneRequest(results[..last], index);
      var k: nat :| k < last && Owns(results[..last], k, index);
      OwnsLonger(results, k, index);
    } else {
      OwnsLast(results, index);
    }
  }

  lemma OwnsLonger(results: seq<InferenceResult>, k: nat, index: nat)
    requires results != [] && k < |results| - 1
    requires |InfoOf(results).boundaries| == |results| && |InfoOf(results[..|results| - 1]).boundaries| == |results| - 1
    requires index < |InfoOf(results[..|results| - 1]).tokens| && Owns(results[..|results| - 1], k, index)
    ensures index < |InfoOf(results).tokens| && Owns(results, k, index)
  {
    var last := |results| - 1;
    var (before, info) := (InfoOf(results[..last]), InfoOf(results));
    assert forall j :: 0 <= j < last ==> info.boundaries[j] == before.boundaries[j];
  }

  lemma OwnsLast(results: seq<InferenceResult>, index: nat)
    requires results != [] && |InfoOf(results).boundaries| == |results|
    requires |InfoOf(results[..|results| - 1]).tokens| <= index < |InfoOf(results).tokens|
    ensures Owns(results, |results| - 1, index)
  {
    var last := |results| - 1;
    var (before, info) := (InfoOf(results[..last]), InfoOf(results));
    BoundariesEnd(results[..last]);
    assert forall j :: 0 <= j < last ==> info.boundaries[j] == before.boundaries[j];
  }

  /** No boundary reaches past the tokens. */
  lemma {:induction false} BoundariesEnd(results: seq<InferenceResult>)
    ensures |InfoOf(results).boundaries| == |InfoOf(results).prompts| == |results|
    ensures forall j :: 0 <= j < |results| ==> InfoOf(results).boundaries[j].1 <= |InfoOf(results).tokens|
    decreases |results|
  {
    if results != [] {
      BoundariesEnd(results[..|results| - 1]);
    }
  }

  // ---------- Aligning ----------

  function RequestFrom(boundaries: seq<(nat, nat)>, index: nat, from: nat): Option<nat>
    requires from <= |boundaries|
    decreases |boundaries| - from
  {
    if from == |boundaries| then None
    else if Inside(boundaries[from], index) then Some(from)
    else RequestFrom(boundaries, index, from + 1)
  }

  /** The first request whose boundary holds the index. */
  function RequestOf(boundaries: seq<(nat, nat)>, index: nat): Option<nat> {
    RequestFrom(boundaries, index, 0)
  }

  function PromptOf(info: TokenInfo, request: Option<nat>): string {
    if request.Some? && request.value < |info.prompts| then info.prompts[request.value] else ""
  }

  function Decoded(tok: Tokenizer, id: int): Option<string> {
    if tok.NoTokenizer? then None else tok.decode(id)
  }

  /** A record aligned with the token at `index`. */
  function AlignOne(tok: Tokenizer, info: TokenInfo, r: Record, index: nat): Record
    requires index < |info.tokens|
  {
    var id := info.tokens[index];
    var request := RequestOf(info.boundaries, index);
    r.(outputTokenId := Some(id), outputToken := Decoded(tok, id), prompt := PromptOf(info, request),
       requestId := request, tokenIndex := Some(index))
  }

  /** How many of `n` records starting at token `start` have a token. */
  function Matching(info: TokenInfo, n: nat, start: nat): nat {
    if start >= |info.tokens| then 0 else if n < |info.tokens| - start then n else |info.tokens| - start
  }

  /** The records that have a token, from token `start` on. */
  function AlignFrom(tok: Tokenizer, info: TokenInfo, records: seq<Record>, start: nat): seq<Record> {
    seq(Matching(info, |records|, start), i requires 0 <= i < Matching(info, |records|, start) =>
      AlignOne(tok, info, records[i], start + i))
  }

  method FindRequest(info: TokenInfo, index: nat) returns (request: Option<nat>, prompt: string)
    ensures request == RequestOf(info.boundaries, index) && prompt == PromptOf(info, request)
  {
    request, prompt := None, "";
    for k := 0 to |info.boundaries|
      invariant request.None? && prompt == ""
      invariant RequestFrom(info.boundaries, index, k) == RequestOf(info.boundaries, index)
    {
      if info.boundaries[k].0 <= index < info.boundaries[k].1 {
        request := Some(k);
        prompt := if k < |info.prompts| then info.prompts[k] else "";
        break;
      }
    }
  }

  method AlignRecord(tok: Tokenizer, info: TokenInfo, r: Record, index: nat) returns (aligned: Record)
    requires index < |info.tokens|
    ensures aligned == AlignOne(tok, info, r, index)
  {
    var id := info.tokens[index];
    var request, prompt := FindRequest(info, index);
    aligned := r.(outputTokenId := Some(id), outputToken := Decoded(tok, id));
    aligned := aligned.(prompt := prompt, requestId := request, tokenIndex := Some(index));
  }

  /** One file's records: stops at the first record without a token. */
  method AlignFile(tok: Tokenizer, info: TokenInfo, records: seq<Record>, start: nat) returns (aligned: seq<Record>)
    ensures aligned == AlignFrom(tok, info, records, start)
  {
    aligned := [];
    for i := 0 to |records|
      invariant aligned == AlignFrom(tok, info, records[..i], start)
    {
      if start + i >= |info.tokens| {
        break;
      }
      var r := AlignRecord(tok, info, records[i], start + i);
      aligned := aligned + [r];
    }
    assert records[..|records|] == records;
  }

  /** All records at once: as many as there are both tokens and records. */
  method AlignTokensWithExperts(results: seq<InferenceResult>, records: seq<Record>, tok: Tokenizer, numRequests: Option<int>)
    returns (aligned: seq<Record>)
    ensures aligned == AlignFrom(tok, InfoOf(results[..Limit(results, numRequests)]), records, 0)
  {
    var info := PrepareTokenInfo(results, numRequests);
    var matchCount := if |info.tokens| < |records| then |info.tokens| else |records|;
    aligned := [];
    for i := 0 to matchCount
      invariant aligned == AlignFrom(tok, info, records[..i], 0)
    {
      var r := AlignRecord(tok, info, records[i], i);
      aligned := aligned + [r];
    }
    assert AlignFrom(tok, info, records[..matchCount], 0) == AlignFrom(tok, info, records, 0);
  }

  /** Aligning two files in turn is aligning them as one. */
  lemma AlignSplit(tok: Tokenizer, info: TokenInfo, xs: seq<Record>, ys: seq<Record>, start: nat)
    ensures AlignFrom(tok, info, xs + ys, start) == AlignFrom(tok, info, xs, start) + AlignFrom(tok, info, ys, start + |xs|)
  {}

  /** An aligned record names the one request its token belongs to, and carries that request's token. */
  lemma AlignedRecordIsRight(tok: Tokenizer, results: seq<InferenceResult>, records: seq<Record>, i: nat)
    requires i < |AlignFrom(tok, InfoOf(results), records, 0)|
    ensures var (info, r) := (InfoOf(results), AlignFrom(tok, InfoOf(results), records, 0)[i]);
            && r.tokenIndex == Some(i) && r.requestId.Some? && r.requestId.value < |results| == |info.boundaries|
            && Inside(info.boundaries[r.requestId.value], i)
            && i - info.boundaries[r.requestId.value].0 < |results[r.requestId.value].tokenIds|
            && r.outputTokenId == Some(results[r.requestId.value].tokenIds[i - info.boundaries[r.requestId.value].0])
  {
    ExactlyOneRequest(results, i);
    RequestIsInside(InfoOf(results).boundaries, i, 0);
  }

  lemma {:induction false} RequestIsInside(boundaries: seq<(nat, nat)>, index: nat, from: nat)
    requires from <= |boundaries|
    ensures match RequestFrom(boundaries, index, from)
            case Some(k) => from <= k < |boundaries| && Inside(boundaries[k], index)
            case None => forall k :: from <= k < |boundaries| ==> !Inside(boundaries[k], index)
    decreases |boundaries| - from
  {
    if from < |boundaries| {
      RequestIsInside(boundaries, index, from + 1);
    }
  }

  // ---------- Counting the choices ----------

  type Cell = (nat, int)   // layer and expert

  /** What a record does to the dictionaries, one entry at a time. */
  datatype Effect = Hit(cell: Cell) | Weigh(cell: Cell, weight: real)

  datatype Totals = Totals(counts: map<Cell, nat>, weights: map<Cell, real>)

  function CountAt(t: Totals, cell: Cell): nat { if cell in t.counts then t.counts[cell] else 0 }

  function WeightAt(t: Totals, cell: Cell): real { if cell in t.weights then t.weights[cell] else 0.0 }

  function Apply(t: Totals, e: Effect): Totals {
    match e
    case Hit(cell) => t.(counts := t.counts[cell := CountAt(t, cell) + 1])
    case Weigh(cell, w) => t.(weights := t.weights[cell := WeightAt(t, cell) + w])
  }

  function ApplyAll(t: Totals, es: seq<Effect>): Totals {
    if es == [] then t else Apply(ApplyAll(t, es[..|es| - 1]), es[|es| - 1])
  }

  lemma {:induction false} ApplyAppend(t: Totals, xs: seq<Effect>, ys: seq<Effect>)
    ensures ApplyAll(t, xs + ys) == ApplyAll(ApplyAll(t, xs), ys)
    decreases |ys|
  {
    if ys == [] {
      assert xs + ys == xs;
    } else {
      assert (xs + ys)[..|xs + ys| - 1] == xs + ys[..|ys| - 1];
      ApplyAppend(t, xs, ys[..|ys| - 1]);
    }
  }

  lemma ApplyOne(t: Totals, e: Effect)
    ensures ApplyAll(t, [e]) == Apply(t, e)
  {
    assert [e][..0] == [];
  }

  predicate ValidId(id: int) { 0 <= id < 256 }

  function Hits(layer: nat, ids: seq<int>, n: nat): seq<Effect>
    requires n <= |ids|
  {
    if n == 0 then [] else Hits(layer, ids, n - 1) + if ValidId(ids[n - 1]) then [Hit((layer, ids[n - 1]))] else []
  }

  function Weighings(layer: nat, ids: seq<int>, ws: seq<real>, n: nat): seq<Effect>
    requires n <= |ids| == |ws|
  {
    if n == 0 then []
    else Weighings(layer, ids, ws, n - 1) + if ValidId(ids[n - 1]) then [Weigh((layer, ids[n - 1]), ws[n - 1])] else []
  }

  /** The weights of a batch, when there are any for it. */
  function BatchWeights(r: Record, layer: nat, batch: nat): seq<real> {
    if layer < |r.topkWeights| && batch < |r.topkWeights[layer]| then r.topkWeights[layer][batch] else []
  }

  function BatchEffects(r: Record, layer: nat, batch: nat): seq<Effect>
    requires layer < |r.topkIds| && batch < |r.topkIds[layer]|
  {
    var (ids, ws) := (r.topkIds[layer][batch], BatchWeights(r, layer, batch));
    Hits(layer, ids, |ids|) + if ws != [] && |ws| == |ids| then Weighings(layer, ids, ws, |ws|) else []
  }

  function LayerEffects(r: Record, layer: nat, n: nat): seq<Effect>
    requires layer < |r.topkIds| && n <= |r.topkIds[layer]|
  {
    if n == 0 then [] else LayerEffects(r, layer, n - 1) + BatchEffects(r, layer, n - 1)
  }

  function RecordEffects(r: Record, n: nat): seq<Effect>
    requires n <= |r.topkIds|
  {
    if n == 0 then [] else RecordEffects(r, n - 1) + LayerEffects(r, n - 1, |r.topkIds[n - 1]|)
  }

  /** The token a record is filtered by. */
  function TokenOf(r: Record): Option<int> {
    if r.outputTokenId.Some? then r.outputTokenId else if r.inputIds != [] then Some(r.inputIds[0]) else None
  }

  predicate Skipped(r: Record, eos: set<int>) {
    (TokenOf(r).Some? && TokenOf(r).value in eos) || r.topkIds == []
  }

  datatype Analysis = Analysis(totals: Totals, processed: nat, skipped: nat)

  function AnalyzeOne(a: Analysis, r: Record, eos: set<int>): Analysis {
    if Skipped(r, eos) then a.(skipped := a.skipped + 1)
    else a.(totals := ApplyAll(a.totals, RecordEffects(r, |r.topkIds|)), processed := a.processed + 1)
  }

  function Analyze(a: Analysis, records: seq<Record>, eos: set<int>): Analysis {
    if records == [] then a
    else AnalyzeOne(Analyze(a, records[..|records| - 1], eos), records[|records| - 1], eos)
  }

  function NoAnalysis(): Analysis { Analysis(Totals(map[], map[]), 0, 0) }

  /** Analyzing two files in turn is analyzing them as one. */
  lemma {:induction false} AnalyzeSplit(a: Analysis, xs: seq<Record>, ys: seq<Record>, eos: set<int>)
    ensures Analyze(a, xs + ys, eos) == Analyze(Analyze(a, xs, eos), ys, eos)
    decreases |ys|
  {
    if ys == [] {
      assert xs + ys == xs;
    } else {
      assert (xs + ys)[..|xs + ys| - 1] == xs + ys[..|ys| - 1];
      AnalyzeSplit(a, xs, ys[..|ys| - 1], eos);
    }
  }

  /** The dictionaries, which are updated in place. */
  class Counters {
    var totals: Totals

    constructor ()
      ensures totals == Totals(map[], map[])
    {
      totals := Totals(map[], map[]);
    }

    method CountBatch(layer: nat, ids: seq<int>)
      modifies this
      ensures totals == ApplyAll(old(totals), Hits(layer, ids, |ids|))
    {
      for i := 0 to |ids|
        invariant totals == ApplyAll(old(totals), Hits(layer, ids, i))
      {
        if ids[i] >= 0 && ids[i] < 256 {
          ApplyAppend(old(totals), Hits(layer, ids, i), [Hit((layer, ids[i]))]);
          ApplyOne(totals, Hit((layer, ids[i])));
          totals := totals.(counts := totals.counts[(layer, ids[i]) := CountAt(totals, (layer, ids[i])) + 1]);
        } else {
          assert Hits(layer, ids, i) + [] == Hits(layer, ids, i);
        }
      }
    }

    method WeighBatch(layer: nat, ids: seq<int>, ws: seq<real>)
      requires |ids| == |ws|
      modifies this
      ensures totals == ApplyAll(old(totals), Weighings(layer, ids, ws, |ws|))
    {
      for i := 0 to |ws|
        invariant totals == ApplyAll(old(totals), Weighings(layer, ids, ws, i))
      {
        if ids[i] >= 0 && ids[i] < 256 {
          ApplyAppend(old(totals), Weighings(layer, ids, ws, i), [Weigh((layer, ids[i]), ws[i])]);
          ApplyOne(totals, Weigh((layer, ids[i]), ws[i]));
          totals := totals.(weights := totals.weights[(layer, ids[i]) := WeightAt(totals, (layer, ids[i])) + ws[i]]);
        } else {
          assert Weighings(layer, ids, ws, i) + [] == Weighings(layer, ids, ws, i);
        }
      }
    }

    method AddBatch(r: Record, layer: nat, batch: nat)
      requires layer < |r.topkIds| && batch < |r.topkIds[layer]|
      modifies this
      ensures totals == ApplyAll(old(totals), BatchEffects(r, layer, batch))
    {
      var ids, ws := r.topkIds[layer][batch], BatchWeights(r, layer, batch);
      CountBatch(layer, ids);
      var hits := Hits(layer, ids, |ids|);
      if ws != [] && |ws| == |ids| {
        ApplyAppend(old(totals), hits, Weighings(layer, ids, ws, |ws|));
        WeighBatch(layer, ids, ws);
      } else {
        assert hits + [] == hits;
      }
    }

    method AddLayer(r: Record, layer: nat)
      requires layer < |r.topkIds|
      modifies this
      ensures totals == ApplyAll(old(totals), LayerEffects(r, layer, |r.topkIds[layer]|))
    {
      for batch := 0 to |r.topkIds[layer]|
        invariant totals == ApplyAll(old(totals), LayerEffects(r, layer, batch))
      {
        ApplyAppend(old(totals), LayerEffects(r, layer, batch), BatchEffects(r, layer, batch));
        AddBatch(r, layer, batch);
      }
    }

    method AddRecord(r: Record)
      modifies this
      ensures totals == ApplyAll(old(totals), RecordEffects(r, |r.topkIds|))
    {
      for layer := 0 to |r.topkIds|
        invariant totals == ApplyAll(old(totals), RecordEffects(r, layer))
      {
        ApplyAppend(old(totals), RecordEffects(r, layer), LayerEffects(r, layer, |r.topkIds[layer]|));
        AddLayer(r, layer);
      }
    }

    /** `analyze_expert_selection` on these dictionaries: the numbers of processed and skipped records of this call. */
    method AnalyzeRecords(records: seq<Record>, eos: set<int>) returns (processed: nat, skipped: nat)
      modifies this
      ensures Analysis(totals, processed, skipped) == Analyze(Analysis(old(totals), 0, 0), records, eos)
    {
      processed, skipped := 0, 0;
      for i := 0 to |records|
        invariant Analysis(totals, processed, skipped) == Analyze(Analysis(old(totals), 0, 0), records[..i], eos)
      {
        assert records[..i + 1][..i] == records[..i];
        var r := records[i];
        var token := TokenOf(r);
        if token.Some? && token.value in eos {
          skipped := skipped + 1;
        } else if r.topkIds == [] {
          skipped := skipped + 1;
        } else {
          AddRecord(r);
          processed := processed + 1;
        }
      }
      assert records[..|records|] == records;
    }
  }

  /** The numbers of earlier records are only added. */
  lemma {:induction false} AnalyzeOffset(t: Totals, p: nat, s: nat, records: seq<Record>, eos: set<int>)
    ensures var (a, b) := (Analyze(Analysis(t, 0, 0), records, eos), Analyze(Analysis(t, p, s), records, eos));
            b == Analysis(a.totals, p + a.processed, s + a.skipped)
    decreases |records|
  {
    if records != [] {
      AnalyzeOffset(t, p, s, records[..|records| - 1], eos);
    }
  }

  // ---------- File by file ----------

  /** A file: its records, or None when it cannot be loaded. */
  type File = Option<seq<Record>>

  /** The records of all files that load, in order. */
  function Loaded(files: seq<File>): seq<Record> {
    if files == [] then []
    else Loaded(files[..|files| - 1]) + (if files[|files| - 1].Some? then files[|files| - 1].value else [])
  }

  /** The files count in their order: one that loads with all its records, one that does not with none. */
  lemma {:induction false} LoadedInOrder(before: seq<File>, file: File, rest: seq<File>)
    ensures Loaded(before + [file] + rest) == Loaded(before) + (if file.Some? then file.value else []) + Loaded(rest)
    decreases |rest|
  {
    var all := before + [file] + rest;
    if rest == [] {
      assert all[..|all| - 1] == before;
    } else {
      assert all[..|all| - 1] == before + [file] + rest[..|rest| - 1];
      LoadedInOrder(before, file, rest[..|rest| - 1]);
    }
  }

  /** What processing leaves behind: the saved records and the statistics. */
  datatype Output = Output(saved: seq<Record>, analysis: Analysis)

  /** The result of processing all records at once. */
  function OneShot(tok: Tokenizer, info: TokenInfo, records: seq<Record>, eos: set<int>): Output {
    var aligned := AlignFrom(tok, info, records, 0);
    Output(aligned, Analyze(NoAnalysis(), aligned, eos))
  }

  method ProcessOneShot(results: seq<InferenceResult>, records: seq<Record>, tok: Tokenizer, numRequests: Option<int>, eos: set<int>)
    returns (output: Output)
    ensures output == OneShot(tok, InfoOf(results[..Limit(results, numRequests)]), records, eos)
  {
    var aligned := AlignTokensWithExperts(results, records, tok, numRequests);
    var counters := new Counters();
    var processed, skipped := counters.AnalyzeRecords(aligned, eos);
    output := Output(aligned, Analysis(counters.totals, processed, skipped));
  }

  /** One more loaded file extends the one-shot result by what the file adds. */
  lemma OneMoreFile(tok: Tokenizer, info: TokenInfo, before: seq<Record>, records: seq<Record>, eos: set<int>)
    ensures var (was, more) := (OneShot(tok, info, before, eos), AlignFrom(tok, info, records, |before|));
            var file := Analyze(Analysis(was.analysis.totals, 0, 0), more, eos);
            OneShot(tok, info, before + records, eos) ==
            Output(was.saved + more,
                   Analysis(file.totals, was.analysis.processed + file.processed, was.analysis.skipped + file.skipped))
  {
    var was := OneShot(tok, info, before, eos);
    var more := AlignFrom(tok, info, records, |before|);
    AlignSplit(tok, info, before, records, 0);
    AnalyzeSplit(NoAnalysis(), was.saved, more, eos);
    AnalyzeOffset(was.analysis.totals, was.analysis.processed, was.analysis.skipped, more, eos);
  }

  /**
  Processing file by file, keeping only the dictionaries, saves and counts exactly what processing the loaded records at once would.
  Without any file there is no result.
  */
  method ProcessFilesStreaming(files: seq<File>, tok: Tokenizer, info: TokenInfo, eos: set<int>) returns (output: Option<Output>)
    ensures output == if files == [] then None else Some(OneShot(tok, info, Loaded(files), eos))
  {
    if files == [] {
      return None;
    }
    var counters := new Counters();
    var globalIndex, processed, skipped := 0, 0, 0;
    var saved: seq<Record> := [];
    assert Loaded(files[..0]) == [] && AlignFrom(tok, info, [], 0) == [];
    for i := 0 to |files|
      invariant fresh(counters) && globalIndex == |Loaded(files[..i])|
      invariant Output(saved, Analysis(counters.totals, processed, skipped)) == OneShot(tok, info, Loaded(files[..i]), eos)
    {
      assert files[..i + 1][..i] == files[..i];
      ghost var before := Loaded(files[..i]);
      if files[i].None? || files[i].value == [] {
        assert before + [] == before;
        continue;
      }
      var records := files[i].value;
      OneMoreFile(tok, info, before, records, eos);
      var aligned := AlignFile(tok, info, records, globalIndex);
      if aligned == [] {
        globalIndex := globalIndex + |records|;
        assert saved + [] == saved;
        continue;
      }
      var p, s := counters.AnalyzeRecords(aligned, eos);
      processed, skipped := processed + p, skipped + s;
      saved := saved + aligned;
      globalIndex := globalIndex + |records|;
    }
    assert files[..|files|] == files;
    output := Some(Output(saved, Analysis(counters.totals, processed, skipped)));
  }

  // ---------- What the counters hold ----------

  function Occurrences(es: seq<Effect>, cell: Cell): nat {
    if es == [] then 0 else Occurrences(es[..|es| - 1], cell) + if es[|es| - 1] == Hit(cell) then 1 else 0
  }

  function WeightOf(es: seq<Effect>, cell: Cell): real {
    if es == [] then 0.0
    else
      var e := es[|es| - 1];
      WeightOf(es[..|es| - 1], cell) + if e.Weigh? && e.cell == cell then e.weight else 0.0
  }

  /** All effects of the records that are not skipped. */
  function EffectsOf(records: seq<Record>, eos: set<int>): seq<Effect> {
    if records == [] then []
    else
      var r := records[|records| - 1];
      EffectsOf(records[..|records| - 1], eos) + if Skipped(r, eos) then [] else RecordEffects(r, |r.topkIds|)
  }

  lemma {:induction false} ApplyCounts(t: Totals, es: seq<Effect>, cell: Cell)
    ensures CountAt(ApplyAll(t, es), cell) == CountAt(t, cell) + Occurrences(es, cell)
    ensures WeightAt(ApplyAll(t, es), cell) == WeightAt(t, cell) + WeightOf(es, cell)
    decreases |es|
  {
    if es != [] {
      ApplyCounts(t, es[..|es| - 1], cell);
    }
  }

  lemma {:induction false} AnalyzeEffects(records: seq<Record>, eos: set<int>)
    ensures var a := Analyze(NoAnalysis(), records, eos);
            a.totals == ApplyAll(NoAnalysis().totals, EffectsOf(records, eos)) && a.processed + a.skipped == |records|
    decreases |records|
  {
    if records != [] {
      var (front, r) := (records[..|records| - 1], records[|records| - 1]);
      AnalyzeEffects(front, eos);
      ApplyAppend(NoAnalysis().totals, EffectsOf(front, eos), if Skipped(r, eos) then [] else RecordEffects(r, |r.topkIds|));
    }
  }

  /** The dictionaries hold, for each layer and expert, how often the expert was chosen and with what weight; every record is processed or skipped. */
  lemma CountersCountChoices(records: seq<Record>, eos: set<int>, cell: Cell)
    ensures var a := Analyze(NoAnalysis(), records, eos);
            && CountAt(a.totals, cell) == Occurrences(EffectsOf(records, eos), cell)
            && WeightAt(a.totals, cell) == WeightOf(EffectsOf(records, eos), cell)
            && a.processed + a.skipped == |records|
  {
    AnalyzeEffects(records, eos);
    ApplyCounts(NoAnalysis().totals, EffectsOf(records, eos), cell);
  }
}
