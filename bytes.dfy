/** Byte sequences and the two searches the drain step performs on a preview:
    the banner search (`re.search` on the byte pattern, modelled as a literal
    pattern search) and `bytes.find(b"\n", start)`. */
module Bytes {

  datatype Option<T> = None | Some(value: T)

  /** The newline byte, b"\n". */
  const NL: bv8 := 10

  function Min(a: int, b: int): int
  {
    if a <= b then a else b
  }

  /** The pattern occurs in `s` starting at offset `k`. */
  predicate MatchAt(s: seq<bv8>, pat: seq<bv8>, k: int)
  {
    0 <= k && k + |pat| <= |s| && s[k..k + |pat|] == pat
  }

  /** `k` is the leftmost occurrence of the pattern in `s`: the match that
      `search` reports. */
  predicate IsFirstMatch(s: seq<bv8>, pat: seq<bv8>, k: int)
  {
    MatchAt(s, pat, k) && forall j :: 0 <= j < k ==> !MatchAt(s, pat, j)
  }

  /** The pattern occurs somewhere in `s`. */
  predicate Occurs(s: seq<bv8>, pat: seq<bv8>)
  {
    exists k :: 0 <= k <= |s| && MatchAt(s, pat, k)
  }

  /** Leftmost occurrence of the pattern at or after offset `k`. */
  function FirstMatchFrom(s: seq<bv8>, pat: seq<bv8>, k: nat): (r: Option<nat>)
    decreases |s| - k
    ensures r.Some? ==> k <= r.value && MatchAt(s, pat, r.value)
    ensures r.Some? ==> forall j :: k <= j < r.value ==> !MatchAt(s, pat, j)
    ensures r.None? ==> forall j :: k <= j ==> !MatchAt(s, pat, j)
  {
    if k + |pat| > |s| then None
    else if s[k..k + |pat|] == pat then Some(k)
    else FirstMatchFrom(s, pat, k + 1)
  }

  /** The banner search on a preview: the leftmost occurrence, or None. */
  function Search(s: seq<bv8>, pat: seq<bv8>): (r: Option<nat>)
    ensures r.Some? ==> IsFirstMatch(s, pat, r.value)
    ensures r.None? <==> !Occurs(s, pat)
  {
    FirstMatchFrom(s, pat, 0)
  }

  /** `s.find(bytes([x]), from)`: the first index at or after `from` that holds
      `x`, or -1 when there is none. */
  function Find(s: seq<bv8>, x: bv8, from: nat): (r: int)
    decreases |s| - from
    ensures r == -1 || (from <= r < |s| && s[r] == x)
    ensures r == -1 ==> forall j :: from <= j < |s| ==> s[j] != x
    ensures r != -1 ==> forall j :: from <= j < r ==> s[j] != x
  {
    if from >= |s| then -1
    else if s[from] == x then from
    else Find(s, x, from + 1)
  }

  /** The concatenation of a sequence of chunks. */
  function Flatten(chunks: seq<seq<bv8>>): seq<bv8>
  {
    if chunks == [] then [] else chunks[0] + Flatten(chunks[1..])
  }

  /** A pattern occurrence in `t` stays an occurrence, shifted by |w|, in `w + t`. */
  lemma MatchShift(w: seq<bv8>, t: seq<bv8>, pat: seq<bv8>, k: int)
    requires MatchAt(t, pat, k)
    ensures MatchAt(w + t, pat, |w| + k)
  {
    assert (w + t)[|w| + k..|w| + k + |pat|] == t[k..k + |pat|];
  }
}
