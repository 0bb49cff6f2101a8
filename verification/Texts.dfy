/**
 Searching and cutting strings the way std::string does. A search that finds nothing
 yields None, where the C++ code has std::string::npos.
 */
module Texts {
  import opened Options

  /** s.find_first_of(cs, from) */
  function FindFirstOf(s: string, cs: set<char>, from: Option<nat>): (p: Option<nat>)
    ensures p.Some? ==> from.Some? && from.value <= p.value < |s| && s[p.value] in cs
    ensures p.Some? ==> forall i :: from.value <= i < p.value ==> s[i] !in cs
    ensures p.None? && from.Some? ==> forall i :: from.value <= i < |s| ==> s[i] !in cs
    decreases if from.Some? then |s| - from.value else 0
  {
    if from.None? || from.value >= |s| then None
    else if s[from.value] in cs then from
    else FindFirstOf(s, cs, Some(from.value + 1))
  }

  /** s.find_first_not_of(cs, from) */
  function FindFirstNotOf(s: string, cs: set<char>, from: Option<nat>): (p: Option<nat>)
    ensures p.Some? ==> from.Some? && from.value <= p.value < |s| && s[p.value] !in cs
    ensures p.Some? ==> forall i :: from.value <= i < p.value ==> s[i] in cs
    ensures p.None? && from.Some? ==> forall i :: from.value <= i < |s| ==> s[i] in cs
    decreases if from.Some? then |s| - from.value else 0
  {
    if from.None? || from.value >= |s| then None
    else if s[from.value] !in cs then from
    else FindFirstNotOf(s, cs, Some(from.value + 1))
  }

  /** Does pat occur in s at position i? */
  predicate OccursAt(s: string, pat: string, i: int) {
    0 <= i && i + |pat| <= |s| && forall j :: 0 <= j < |pat| ==> s[i + j] == pat[j]
  }

  /** s.find(pat, from) */
  function Find(s: string, pat: string, from: nat): (p: Option<nat>)
    ensures p.Some? ==> from <= p.value && OccursAt(s, pat, p.value)
    decreases |s| - from
  {
    if from + |pat| > |s| then None
    else if OccursAt(s, pat, from) then Some(from)
    else Find(s, pat, from + 1)
  }

  /** Nothing is skipped: the position found is the first occurrence. */
  lemma {:induction false} FindIsFirst(s: string, pat: string, from: nat)
    ensures forall i :: from <= i < (match Find(s, pat, from) case None => |s| + 1 case Some(k) => k) ==>
                          !OccursAt(s, pat, i)
    decreases |s| - from
  {
    if from + |pat| <= |s| && !OccursAt(s, pat, from) {
      FindIsFirst(s, pat, from + 1);
    }
  }

  lemma OccursBehind(s: string, head: string, rest: string, pat: string, k: nat)
    requires s == head + rest
    ensures OccursAt(s, pat, |head| + k) == OccursAt(rest, pat, k)
  {
    assert forall j :: 0 <= j < |rest| ==> s[|head| + j] == rest[j];
  }

  /** Searching behind a prefix is searching in what follows the prefix. */
  lemma {:induction false} FindBehind(s: string, head: string, rest: string, pat: string, k: nat)
    requires s == head + rest
    ensures Find(s, pat, |head| + k) ==
            match Find(rest, pat, k) case None => None case Some(j) => Some(|head| + j)
    decreases |rest| - k
  {
    OccursBehind(s, head, rest, pat, k);
    if k + |pat| > |rest| {
    } else if OccursAt(rest, pat, k) {
      assert Find(rest, pat, k) == Some(k);
      assert Find(s, pat, |head| + k) == Some(|head| + k);
    } else {
      FindBehind(s, head, rest, pat, k + 1);
      assert Find(rest, pat, k) == Find(rest, pat, k + 1);
      assert Find(s, pat, |head| + k) == Find(s, pat, |head| + k + 1);
    }
  }

  /** s.substr(start, count): the caller must not start beyond the end. */
  function Substr(s: string, start: nat, count: nat): string
    requires start <= |s|
  {
    if start + count <= |s| then s[start..start + count] else s[start..]
  }

  // ---- cutting at the first delimiter ----

  predicate Free(s: string, cs: set<char>) {
    forall i :: 0 <= i < |s| ==> s[i] !in cs
  }

  /** The length of the longest prefix of s without a character of cs. */
  function Cut(s: string, cs: set<char>): (k: nat)
    ensures k <= |s| && forall i :: 0 <= i < k ==> s[i] !in cs
    ensures k < |s| ==> s[k] in cs
  {
    if s == "" || s[0] in cs then 0 else 1 + Cut(s[1..], cs)
  }

  function Before(s: string, cs: set<char>): string {
    s[..Cut(s, cs)]
  }

  function From(s: string, cs: set<char>): string {
    s[Cut(s, cs)..]
  }

  /** Cutting skips a prefix that holds no delimiter. */
  lemma CutConcat(a: string, b: string, cs: set<char>)
    requires Free(a, cs)
    ensures Cut(a + b, cs) == |a| + Cut(b, cs)
    ensures Before(a + b, cs) == a + Before(b, cs)
    ensures From(a + b, cs) == From(b, cs)
  {
    var c, k := Cut(a + b, cs), |a| + Cut(b, cs);
    assert forall i :: 0 <= i < |a| ==> (a + b)[i] == a[i];
    assert forall i :: 0 <= i < |b| ==> (a + b)[|a| + i] == b[i];
    assert c == k;
  }

  /** find_first_of is the cut of the suffix it searches. */
  lemma FindIsCut(s: string, cs: set<char>, from: nat)
    requires from <= |s|
    ensures FindFirstOf(s, cs, Some(from)) ==
            if Cut(s[from..], cs) == |s| - from then None else Some(from + Cut(s[from..], cs))
  {
    var p := FindFirstOf(s, cs, Some(from));
    var k := if p.Some? then p.value - from else |s| - from;
    var c := Cut(s[from..], cs);
    assert c < |s| - from ==> s[from..][c] == s[from + c];
    assert k < |s| - from ==> s[from..][k] == s[from + k];
    assert k == c;
  }

  /** Both halves of a cut suffix, as slices of the whole text. */
  lemma CutAt(s: string, cs: set<char>, from: nat, suffix: string)
    requires from <= |s| && suffix == s[from..]
    ensures match FindFirstOf(s, cs, Some(from))
            case None => Before(suffix, cs) == suffix && From(suffix, cs) == "" && Free(suffix, cs)
            case Some(p) => Before(suffix, cs) == s[from..p] && From(suffix, cs) == s[p..] && s[p] in suffix
  {
    hide Cut, FindFirstOf;
    FindIsCut(s, cs, from);
    var k := Cut(suffix, cs);
    if k < |suffix| {
      assert suffix[k] == s[from + k];
    }
  }

  /** A cut at the seam: the prefix holds no delimiter, what follows starts with one (or is empty). */
  lemma CutAtSeam(s: string, a: string, b: string, cs: set<char>)
    requires s == a + b && Free(a, cs)
    requires b == "" || b[0] in cs
    ensures Before(s, cs) == a && From(s, cs) == b
  {
    CutConcat(a, b, cs);
  }

  lemma FreeConcat(a: string, b: string, cs: set<char>)
    requires Free(a, cs) && Free(b, cs)
    ensures Free(a + b, cs)
  {
  }
}
