/** Merging overlapping chunks of a streamed text. */
module StreamMerge {

  predicate EndsWith(s: string, t: string) {
    |t| <= |s| && s[|s| - |t|..] == t
  }

  /** The last `n` characters of `existing` are the first `n` of `chunk`. */
  predicate Overlap(existing: string, chunk: string, n: nat) {
    n <= |existing| && n <= |chunk| && EndsWith(existing, chunk[..n])
  }

  /** The largest overlap. */
  function MaxOverlap(existing: string, chunk: string): (r: nat)
    ensures Overlap(existing, chunk, r)
    ensures forall n: nat :: Overlap(existing, chunk, n) ==> n <= r
  {
    assert existing[|existing|..] == chunk[..0];
    OverlapFrom(existing, chunk, if |existing| < |chunk| then |existing| else |chunk|)
  }

  function OverlapFrom(existing: string, chunk: string, limit: nat): (r: nat)
    requires Overlap(existing, chunk, 0)
    ensures r <= limit && Overlap(existing, chunk, r)
    ensures forall n: nat :: n <= limit && Overlap(existing, chunk, n) ==> n <= r
  {
    if limit == 0 || Overlap(existing, chunk, limit) then limit else OverlapFrom(existing, chunk, limit - 1)
  }

  method TrimOverlap(existing: string, chunk: string) returns (r: string)
    ensures r == chunk[MaxOverlap(existing, chunk)..]
  {
    var maxOverlap := 0;
    var maxPossible := if |existing| < |chunk| then |existing| else |chunk|;
    var i := maxPossible;
    while i > 0
      invariant 0 <= i <= maxPossible && maxOverlap == 0
      invariant forall n: nat :: i < n <= maxPossible ==> !Overlap(existing, chunk, n)
    {
      if EndsWith(existing, chunk[..i]) {
        maxOverlap := i;
        break;
      }
      i := i - 1;
    }
    assert existing[|existing|..] == chunk[..0];
    assert Overlap(existing, chunk, maxOverlap);
    r := chunk[maxOverlap..];
  }

  /** The text after one more chunk. */
  function Merged(existing: string, chunk: string): string {
    existing + chunk[MaxOverlap(existing, chunk)..]
  }

  lemma OverlapMerges(existing: string, chunk: string, n: nat)
    requires Overlap(existing, chunk, n)
    ensures EndsWith(existing + chunk[n..], chunk)
  {
    var merged := existing + chunk[n..];
    var at := |existing| - n;
    assert merged[at..] == existing[at..] + chunk[n..];
    assert chunk == chunk[..n] + chunk[n..];
  }

  /** Any text that has both must make them overlap. */
  lemma BothOverlap(existing: string, chunk: string, z: string)
    requires existing <= z && EndsWith(z, chunk) && |z| <= |existing| + |chunk|
    ensures Overlap(existing, chunk, |existing| + |chunk| - |z|)
  {
    var k := |existing| + |chunk| - |z|;
    forall i | 0 <= i < k
      ensures existing[|existing| - k..][i] == chunk[..k][i]
    {
      assert z[|z| - |chunk|..][i] == chunk[i];
      assert existing[|existing| - k + i] == z[|existing| - k + i];
    }
    assert existing[|existing| - k..] == chunk[..k];
  }

  /** The merge is the shortest text that begins with the old text and ends with the chunk. */
  lemma MergedIsShortest(existing: string, chunk: string, z: string)
    ensures existing <= Merged(existing, chunk) && EndsWith(Merged(existing, chunk), chunk)
    ensures existing <= z && EndsWith(z, chunk) ==> |Merged(existing, chunk)| <= |z|
  {
    OverlapMerges(existing, chunk, MaxOverlap(existing, chunk));
    if existing <= z && EndsWith(z, chunk) && |existing| + |chunk| > |z| {
      BothOverlap(existing, chunk, z);
    }
  }

  /** A chunk that repeats all of the text so far replaces it. */
  lemma CumulativeChunk(existing: string, chunk: string)
    requires existing <= chunk
    ensures Merged(existing, chunk) == chunk
  {
    assert chunk[..|existing|] == existing && existing[0..] == existing;
    assert Overlap(existing, chunk, |existing|);
    assert existing + chunk[|existing|..] == chunk;
  }

  /** The merge of the first `n` chunks. */
  function MergedTo(chunks: seq<string>, n: nat): string
    requires n <= |chunks|
  {
    if n == 0 then "" else Merged(MergedTo(chunks, n - 1), chunks[n - 1])
  }

  method StreamAndMerge(chunks: seq<string>) returns (finalText: string)
    ensures finalText == MergedTo(chunks, |chunks|)
  {
    finalText := "";
    for i := 0 to |chunks|
      invariant finalText == MergedTo(chunks, i)
    {
      var cleaned := TrimOverlap(finalText, chunks[i]);
      finalText := finalText + cleaned;
    }
  }

  /** On chunks that each repeat the text so far, the merge is the last chunk. */
  lemma {:induction false} CumulativeStream(chunks: seq<string>, n: nat)
    requires 0 < n <= |chunks|
    requires forall i :: 0 <= i < |chunks| - 1 ==> chunks[i] <= chunks[i + 1]
    ensures MergedTo(chunks, n) == chunks[n - 1]
  {
    if n == 1 {
      CumulativeChunk("", chunks[0]);
    } else {
      CumulativeStream(chunks, n - 1);
      assert chunks[n - 2] <= chunks[n - 2 + 1];
      CumulativeChunk(chunks[n - 2], chunks[n - 1]);
    }
  }

  function Concatenated(chunks: seq<string>, n: nat): string
    requires n <= |chunks|
  {
    if n == 0 then "" else Concatenated(chunks, n - 1) + chunks[n - 1]
  }

  /** None of the first `n` chunks begins with an end of the text before it. */
  predicate NoOverlaps(chunks: seq<string>, n: nat)
    requires n <= |chunks|
  {
    n == 0 || (NoOverlaps(chunks, n - 1) && MaxOverlap(Concatenated(chunks, n - 1), chunks[n - 1]) == 0)
  }

  lemma MergedWhole(merged: string, whole: string, chunk: string)
    requires |merged| <= |whole|
    ensures Merged(merged, chunk) == whole + chunk <==> merged == whole && MaxOverlap(merged, chunk) == 0
  {
    var n := MaxOverlap(merged, chunk);
    if Merged(merged, chunk) == whole + chunk {
      assert n == 0 && |merged| == |whole|;
      assert merged == (whole + chunk)[..|whole|] == whole;
    }
    assert chunk[0..] == chunk;
  }

  /** On chunks that each bring only new text, the merge is the whole text exactly when no chunk happens to overlap what came before. */
  lemma {:induction false} IncrementalStream(chunks: seq<string>, n: nat)
    requires n <= |chunks|
    ensures |MergedTo(chunks, n)| <= |Concatenated(chunks, n)|
    ensures MergedTo(chunks, n) == Concatenated(chunks, n) <==> NoOverlaps(chunks, n)
  {
    if n > 0 {
      IncrementalStream(chunks, n - 1);
      MergedWhole(MergedTo(chunks, n - 1), Concatenated(chunks, n - 1), chunks[n - 1]);
    }
  }
}
