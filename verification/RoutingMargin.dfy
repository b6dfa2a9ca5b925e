/** The routing margin of a layer: what conversion stores, and how much noise the selection of experts withstands. */
module RoutingMargin {

  import opened Options

  /** One layer of a converted record. */
  datatype LayerData = LayerData(expertIds: seq<nat>, weights: seq<real>, logits: seq<real>, nextExpertLogit: Option<real>)

  predicate ValidId(id: Option<int>) {
    id.Some? && 0 <= id.value < 256
  }

  /** The logit stored for the selected expert `id` found at position `i`, if there is one. */
  function SelectedLogit(logits: seq<real>, id: nat, i: nat): seq<real> {
    if id < |logits| then [logits[id]] else if i < |logits| then [logits[i]] else []
  }

  /** The layer built from the first `n` positions, without the strongest excluded logit. */
  function Filtered(ids: seq<Option<int>>, weights: seq<Option<real>>, logits: seq<real>, n: nat): LayerData
    requires n <= |ids| && n <= |weights|
  {
    if n == 0 then LayerData([], [], [], None)
    else
      var d := Filtered(ids, weights, logits, n - 1);
      if !ValidId(ids[n - 1]) then d
      else
        var id := ids[n - 1].value;
        LayerData(
          d.expertIds + [id],
          d.weights + [if weights[n - 1].Some? then weights[n - 1].value else 0.0],
          d.logits + SelectedLogit(logits, id, n - 1),
          None)
  }

  function Shorter<S, T>(x: seq<S>, y: seq<T>): nat { if |x| < |y| then |x| else |y| }

  /** The strongest logit of the experts that were not selected. */
  predicate StrongestExcluded(logits: seq<real>, selected: seq<nat>, next: Option<real>) {
    match next
    case None => selected == [] || forall i :: 0 <= i < |logits| ==> i in selected
    case Some(v) =>
      && selected != []
      && (exists i :: 0 <= i < |logits| && i !in selected && logits[i] == v)
      && forall i :: 0 <= i < |logits| && i !in selected ==> logits[i] <= v
  }

  method ConvertLayer(ids: seq<Option<int>>, weights: seq<Option<real>>, logits: seq<real>) returns (layer: LayerData)
    ensures layer.(nextExpertLogit := None) == Filtered(ids, weights, logits, Shorter(ids, weights))
    ensures StrongestExcluded(logits, layer.expertIds, layer.nextExpertLogit)
  {
    var expertIds: seq<nat>, kept: seq<real>, selected: seq<real> := [], [], [];
    for i := 0 to Shorter(ids, weights)
      invariant LayerData(expertIds, kept, selected, None) == Filtered(ids, weights, logits, i)
    {
      if ids[i].Some? && ids[i].value >= 0 && ids[i].value < 256 {
        var id := ids[i].value;
        expertIds := expertIds + [id];
        kept := kept + [if weights[i].Some? then weights[i].value else 0.0];
        if |logits| > id {
          selected := selected + [logits[id]];
        } else if i < |logits| {
          selected := selected + [logits[i]];
        } else {
          assert selected + [] == selected;
        }
      }
    }
    var next: Option<real> := None;
    if logits != [] && expertIds != [] {
      for i := 0 to |logits|
        invariant next.None? ==> forall k :: 0 <= k < i ==> k in expertIds
        invariant next.Some? ==> exists k :: 0 <= k < i && k !in expertIds && logits[k] == next.value
        invariant next.Some? ==> forall k :: 0 <= k < i && k !in expertIds ==> logits[k] <= next.value
      {
        if i !in expertIds && (next.None? || logits[i] > next.value) {
          next := Some(logits[i]);
        }
      }
    }
    layer := LayerData(expertIds, kept, selected, next);
  }

  function Min(s: seq<real>): (r: real)
    requires s != []
    ensures r in s && forall x :: x in s ==> r <= x
  {
    if |s| == 1 then s[0]
    else
      var m := Min(s[1..]);
      assert s == [s[0]] + s[1..];
      if s[0] <= m then s[0] else m
  }

  /** `extract_layer_margin`: weakest selected minus strongest excluded logit, if the layer has the data for it. */
  function LayerMargin(layer: LayerData): Option<real> {
    if layer.expertIds == [] || layer.logits == [] then None
    else if |layer.logits| != |layer.expertIds| then None
    else if layer.nextExpertLogit.None? then None
    else Some(Min(layer.logits) - layer.nextExpertLogit.value)
  }

  function Plus(s: seq<real>, noise: seq<real>): (r: seq<real>)
    requires |s| == |noise|
    ensures |r| == |s| && forall i :: 0 <= i < |s| ==> r[i] == s[i] + noise[i]
  {
    seq(|s|, i requires 0 <= i < |s| => s[i] + noise[i])
  }

  /** `perturbation_keeps_topk`, for the noise that was drawn. */
  predicate KeepsTopK(selected: seq<real>, next: real, noise: seq<real>, nextNoise: real)
    requires selected != [] && |noise| == |selected|
  {
    Min(Plus(selected, noise)) > next + nextNoise
  }

  predicate Within(noise: seq<real>, eps: real) {
    forall i :: 0 <= i < |noise| ==> -eps <= noise[i] <= eps
  }

  predicate WithinBelow(noise: seq<real>, eps: real) {
    forall i :: 0 <= i < |noise| ==> -eps <= noise[i] < eps
  }

  /** The test succeeds whatever noise up to `eps` is drawn. */
  ghost predicate AlwaysKeeps(selected: seq<real>, next: real, eps: real)
    requires selected != []
  {
    forall noise: seq<real>, nextNoise: real ::
      |noise| == |selected| && Within(noise, eps) && -eps <= nextNoise <= eps ==> KeepsTopK(selected, next, noise, nextNoise)
  }

  /** Likewise for noise that never reaches the upper end, as a half-open uniform draw does. */
  ghost predicate AlwaysKeepsBelow(selected: seq<real>, next: real, eps: real)
    requires selected != []
  {
    forall noise: seq<real>, nextNoise: real ::
      |noise| == |selected| && WithinBelow(noise, eps) && -eps <= nextNoise < eps ==> KeepsTopK(selected, next, noise, nextNoise)
  }

  function Constant(n: nat, x: real): (s: seq<real>)
    ensures |s| == n && forall i :: 0 <= i < n ==> s[i] == x
  {
    seq(n, _ => x)
  }

  lemma WorstNoise(selected: seq<real>, eps: real)
    requires selected != []
    ensures Min(Plus(selected, Constant(|selected|, -eps))) == Min(selected) - eps
  {
    var lowered := Plus(selected, Constant(|selected|, -eps));
    var i :| 0 <= i < |selected| && selected[i] == Min(selected);
    assert lowered[i] == Min(selected) - eps && lowered[i] in lowered;
    var j :| 0 <= j < |lowered| && lowered[j] == Min(lowered);
    assert selected[j] in selected;
  }

  lemma NoiseLowersBy(selected: seq<real>, noise: seq<real>, eps: real)
    requires selected != [] && |noise| == |selected| && Within(noise, eps)
    ensures Min(Plus(selected, noise)) >= Min(selected) - eps
  {
    var moved := Plus(selected, noise);
    var j :| 0 <= j < |moved| && moved[j] == Min(moved);
    assert selected[j] in selected;
  }

  /** The exact threshold of the test: it never fails under noise up to `eps` exactly when the margin exceeds twice `eps`. */
  lemma MarginThreshold(selected: seq<real>, next: real, eps: real)
    requires selected != [] && eps >= 0.0
    ensures AlwaysKeeps(selected, next, eps) <==> Min(selected) - next > 2.0 * eps
  {
    if AlwaysKeeps(selected, next, eps) {
      WorstNoise(selected, eps);
      assert KeepsTopK(selected, next, Constant(|selected|, -eps), eps);
    }
    if Min(selected) - next > 2.0 * eps {
      forall noise: seq<real>, nextNoise: real | |noise| == |selected| && Within(noise, eps) && -eps <= nextNoise <= eps
        ensures KeepsTopK(selected, next, noise, nextNoise)
      {
        NoiseLowersBy(selected, noise, eps);
      }
    }
  }

  /** With a half-open draw a margin of exactly twice `eps` is enough. */
  lemma MarginThresholdHalfOpen(selected: seq<real>, next: real, eps: real)
    requires selected != [] && eps > 0.0
    ensures AlwaysKeepsBelow(selected, next, eps) <==> Min(selected) - next >= 2.0 * eps
  {
    var margin := Min(selected) - next;
    if margin < 2.0 * eps {
      WorstNoise(selected, eps);
      var high := if margin - eps > -eps then margin - eps else -eps;
      assert -eps <= high < eps;
      assert !KeepsTopK(selected, next, Constant(|selected|, -eps), high);
    }
    if margin >= 2.0 * eps {
      forall noise: seq<real>, nextNoise: real | |noise| == |selected| && Within(noise, eps) && -eps <= nextNoise < eps
        ensures KeepsTopK(selected, next, noise, nextNoise)
      {
        NoiseLowersBy(selected, noise, eps);
      }
    }
  }

  // ---------- What the stored margin says about the router ----------

  /** Every selected expert has a greater value than every other one. */
  predicate StrictTop(values: seq<real>, selected: seq<nat>) {
    forall i, j :: 0 <= i < |values| && 0 <= j < |values| && i in selected && j !in selected ==> values[i] > values[j]
  }

  /** The selection stays the strict top under any change of all logits by up to `eps`. */
  ghost predicate StaysTop(logits: seq<real>, selected: seq<nat>, eps: real) {
    forall noise: seq<real> :: |noise| == |logits| && Within(noise, eps) ==> StrictTop(Plus(logits, noise), selected)
  }

  /** Logits for every expert that may be selected. */
  predicate FullLogits(ids: seq<Option<int>>, logits: seq<real>) {
    forall i :: 0 <= i < |ids| && ValidId(ids[i]) ==> ids[i].value < |logits|
  }

  /** With full logits the stored logits are those of the selected experts. */
  lemma {:induction false} FullLogitsStored(ids: seq<Option<int>>, weights: seq<Option<real>>, logits: seq<real>, n: nat)
    requires n <= |ids| && n <= |weights| && FullLogits(ids, logits)
    ensures var d := Filtered(ids, weights, logits, n);
            && |d.logits| == |d.expertIds|
            && forall k :: 0 <= k < |d.expertIds| ==> d.expertIds[k] < |logits| && d.logits[k] == logits[d.expertIds[k]]
  {
    if n > 0 {
      FullLogitsStored(ids, weights, logits, n - 1);
    }
  }

  /** The selection withstands all noise up to `eps` exactly when the weakest selected logit is more than twice `eps` above the strongest excluded. */
  lemma TopThreshold(logits: seq<real>, ids: seq<nat>, selected: seq<real>, next: real, eps: real)
    requires eps >= 0.0 && ids != [] && |selected| == |ids|
    requires forall k :: 0 <= k < |ids| ==> ids[k] < |logits| && selected[k] == logits[ids[k]]
    requires StrongestExcluded(logits, ids, Some(next))
    ensures StaysTop(logits, ids, eps) <==> Min(selected) - next > 2.0 * eps
  {
    var weak :| 0 <= weak < |ids| && selected[weak] == Min(selected);
    var strong :| 0 <= strong < |logits| && strong !in ids && logits[strong] == next;
    if StaysTop(logits, ids, eps) {
      var noise := seq(|logits|, i => if i in ids then -eps else eps);
      assert Within(noise, eps);
      var moved := Plus(logits, noise);
      assert StrictTop(moved, ids);
      assert ids[weak] in ids && moved[ids[weak]] > moved[strong];
    }
    if Min(selected) - next > 2.0 * eps {
      forall noise: seq<real> | |noise| == |logits| && Within(noise, eps)
        ensures StrictTop(Plus(logits, noise), ids)
      {
        forall i, j | 0 <= i < |logits| && 0 <= j < |logits| && i in ids && j !in ids
          ensures Plus(logits, noise)[i] > Plus(logits, noise)[j]
        {
          var k :| 0 <= k < |ids| && ids[k] == i;
          assert selected[k] in selected;
        }
      }
    }
  }

  /** For a layer converted from full logits: its stored margin, its noise test and the router's selection agree on how much noise is too much. */
  lemma StoredMarginIsExact(ids: seq<Option<int>>, weights: seq<Option<real>>, logits: seq<real>, layer: LayerData, eps: real)
    requires layer.(nextExpertLogit := None) == Filtered(ids, weights, logits, Shorter(ids, weights))
    requires StrongestExcluded(logits, layer.expertIds, layer.nextExpertLogit)
    requires FullLogits(ids, logits) && eps >= 0.0
    ensures LayerMargin(layer).Some? <==> layer.expertIds != [] && exists i :: 0 <= i < |logits| && i !in layer.expertIds
    ensures LayerMargin(layer).Some? ==>
              && (LayerMargin(layer).value > 2.0 * eps <==> AlwaysKeeps(layer.logits, layer.nextExpertLogit.value, eps))
              && (LayerMargin(layer).value > 2.0 * eps <==> StaysTop(logits, layer.expertIds, eps))
  {
    FullLogitsStored(ids, weights, logits, Shorter(ids, weights));
    if LayerMargin(layer).Some? {
      MarginThreshold(layer.logits, layer.nextExpertLogit.value, eps);
      TopThreshold(logits, layer.expertIds, layer.logits, layer.nextExpertLogit.value, eps);
    }
  }

  /** How many of the first `i` positions hold a valid expert id. */
  function ValidBefore(ids: seq<Option<int>>, i: nat): nat
    requires i <= |ids|
  {
    if i == 0 then 0 else ValidBefore(ids, i - 1) + if ids[i - 1].Some? && 0 <= ids[i - 1].value < 256 then 1 else 0
  }

  /** Position by position: valid ids are kept in order with their weights, zero standing for a missing one, and nothing else is. */
  lemma {:induction false} KeptInOrder(ids: seq<Option<int>>, weights: seq<Option<real>>, logits: seq<real>, i: nat, n: nat)
    requires i < n <= |ids| && n <= |weights|
    ensures var d := Filtered(ids, weights, logits, n);
            && |d.expertIds| == |d.weights| == ValidBefore(ids, n)
            && (ids[i].Some? && 0 <= ids[i].value < 256 ==>
                  var k := ValidBefore(ids, i);
                  k < |d.expertIds| && d.expertIds[k] == ids[i].value
                  && d.weights[k] == if weights[i].Some? then weights[i].value else 0.0)
    decreases n
  {
    if n - 1 > 0 {
      KeptInOrder(ids, weights, logits, if i < n - 1 then i else 0, n - 1);
    }
  }
}
