/** Python string operations used by the language runtime. */
module Text {

  /** The characters `str.lstrip()` removes. */
  predicate IsSpace(c: char) {
    c in " \t\n\r" || c in "\U{000B}\U{000C}\U{001C}\U{001D}\U{001E}\U{001F}\U{0085}\U{00A0}" ||
    c in "\U{1680}\U{2028}\U{2029}\U{202F}\U{205F}\U{3000}" || '\U{2000}' <= c <= '\U{200A}'
  }

  function LStrip(s: string): (r: string)
    ensures |r| <= |s|
    ensures |r| == |s| <==> r == s
  {
    if s != "" && IsSpace(s[0]) then LStrip(s[1..]) else s
  }

  /** Only leading whitespace is removed, and all of it. */
  lemma {:induction false} LStripSplits(s: string) returns (k: nat)
    ensures k <= |s| && LStrip(s) == s[k..]
    ensures (forall i :: 0 <= i < k ==> IsSpace(s[i])) && (k < |s| ==> !IsSpace(s[k]))
  {
    k := 0;
    if s != "" && IsSpace(s[0]) {
      var rest := LStripSplits(s[1..]);
      k := rest + 1;
      assert s[1..][rest..] == s[k..];
      forall i | 0 <= i < k
        ensures IsSpace(s[i])
      {
        if i > 0 {
          assert s[i] == s[1..][i - 1];
        }
      }
    }
  }

  /** The slice `s[:n]`. */
  function Take(s: string, n: nat): (r: string)
    ensures r <= s && |r| == if n <= |s| then n else |s|
  {
    if n <= |s| then s[..n] else s
  }

  /** The slice `s[n:]`. */
  function Drop(s: string, n: nat): (r: string)
    ensures Take(s, n) + r == s
  {
    if n <= |s| then s[n..] else ""
  }

  /** The concatenation of all parts, in order. */
  function Join(parts: seq<string>): string {
    if parts == [] then "" else parts[0] + Join(parts[1..])
  }

  lemma {:induction false} JoinAppend(a: seq<string>, b: seq<string>)
    ensures Join(a + b) == Join(a) + Join(b)
  {
    if a == [] {
      assert a + b == b;
    } else {
      assert (a + b)[1..] == a[1..] + b;
      JoinAppend(a[1..], b);
    }
  }

  lemma ConcatAssociative<T>(x: seq<T>, y: seq<T>, z: seq<T>)
    ensures (x + y) + z == x + (y + z)
    ensures x + [] == x && [] + x == x
  {}

  lemma TakeSnoc<T>(s: seq<T>, n: nat)
    requires n < |s|
    ensures s[..n + 1] == s[..n] + [s[n]]
  {}

  predicate OccursAt(hay: string, needle: string, i: int) {
    0 <= i <= |hay| - |needle| && hay[i..i + |needle|] == needle
  }

  ghost predicate Contains(hay: string, needle: string) {
    exists i :: OccursAt(hay, needle, i)
  }

  /** An occurrence in a prefix is an occurrence in the whole. */
  lemma OccursInPrefix(hay: string, prefix: string, needle: string, i: int)
    requires prefix <= hay && OccursAt(prefix, needle, i)
    ensures OccursAt(hay, needle, i)
  {
    assert prefix == hay[..|prefix|];
    assert hay[i..i + |needle|] == prefix[i..i + |needle|];
  }

  /** `hay.find(needle)` from position `from` on. */
  function FindFrom(hay: string, needle: string, from: nat): (r: int)
    requires from <= |hay|
    ensures r == -1 || (from <= r && OccursAt(hay, needle, r))
    ensures forall j :: from <= j && (r == -1 || j < r) ==> !OccursAt(hay, needle, j)
    decreases |hay| - from
  {
    if OccursAt(hay, needle, from) then from
    else if from == |hay| then -1
    else FindFrom(hay, needle, from + 1)
  }

  /** `hay.find(needle)`: the first occurrence, or -1 when there is none. */
  function Find(hay: string, needle: string): (r: int)
    ensures r == -1 <==> !Contains(hay, needle)
    ensures r != -1 ==> OccursAt(hay, needle, r) && forall j :: 0 <= j < r ==> !OccursAt(hay, needle, j)
  {
    FindFrom(hay, needle, 0)
  }
}
