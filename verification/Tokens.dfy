/**
 Splitting at runs of delimiters: Tokenize in web_app_manager_utils.cc and SplitPluginTypes
 in web_app_factory_manager_impl.cc.
 */
module Tokens {
  import opened Options
  import opened Texts

  /** A stretch start..end of a text. */
  datatype Run = Run(start: nat, end: nat)

  /** A non-empty stretch without delimiters that cannot be made longer on either side. */
  predicate IsMaximal(s: string, cs: set<char>, run: Run) {
    && run.start < run.end <= |s|
    && (forall i :: run.start <= i < run.end ==> s[i] !in cs)
    && (run.end == |s| || s[run.end] in cs)
    && (run.start == 0 || s[run.start - 1] in cs)
  }

  /** Exactly the maximal delimiter-free stretches from a position on, in order. */
  ghost predicate IsRunList(s: string, cs: set<char>, from: nat, runs: seq<Run>) {
    && (forall k :: 0 <= k < |runs| ==> from <= runs[k].start && IsMaximal(s, cs, runs[k]))
    && (forall k, l :: 0 <= k < l < |runs| ==> runs[k].end < runs[l].start)
    && (forall i :: from <= i < |s| && s[i] !in cs ==> exists k :: 0 <= k < |runs| && runs[k].start <= i < runs[k].end)
  }

  function EndOf(s: string, end: Option<nat>): nat {
    if end.Some? then end.value else |s|
  }

  /** The stretches as the code finds them. */
  function Runs(s: string, cs: set<char>, from: nat): seq<Run>
    decreases |s| - from
  {
    match FindFirstNotOf(s, cs, Some(from))
    case None => []
    case Some(start) =>
      var end := EndOf(s, FindFirstOf(s, cs, Some(start)));
      [Run(start, end)] + Runs(s, cs, end)
  }

  /** A position where a stretch can begin only after a delimiter. */
  predicate AtBoundary(s: string, cs: set<char>, from: nat) {
    from == 0 || from >= |s| || s[from] in cs
  }

  lemma ConsIsOrdered(s: string, cs: set<char>, run: Run, rest: seq<Run>)
    requires IsMaximal(s, cs, run) && IsRunList(s, cs, run.end, rest)
    ensures forall k :: 0 <= k < |rest| ==> run.end < rest[k].start
  {
    forall k | 0 <= k < |rest|
      ensures run.end < rest[k].start
    {
      assert IsMaximal(s, cs, rest[k]) && s[rest[k].start] !in cs;
    }
  }

  lemma ConsCovers(s: string, cs: set<char>, from: nat, run: Run, rest: seq<Run>, i: nat)
    requires IsMaximal(s, cs, run) && IsRunList(s, cs, run.end, rest)
    requires forall i :: from <= i < run.start ==> s[i] in cs
    requires from <= i < |s| && s[i] !in cs
    ensures var runs := [run] + rest; exists k :: 0 <= k < |runs| && runs[k].start <= i < runs[k].end
  {
    var runs := [run] + rest;
    if i < run.end {
      assert runs[0].start <= i < runs[0].end;
    } else {
      var k :| 0 <= k < |rest| && rest[k].start <= i < rest[k].end;
      assert runs[k + 1] == rest[k];
    }
  }

  lemma ConsIsRunList(s: string, cs: set<char>, from: nat, run: Run, rest: seq<Run>)
    requires IsMaximal(s, cs, run) && from <= run.start
    requires forall i :: from <= i < run.start ==> s[i] in cs
    requires IsRunList(s, cs, run.end, rest)
    ensures IsRunList(s, cs, from, [run] + rest)
  {
    ConsIsOrdered(s, cs, run, rest);
    BoundsOf(s, cs, run);
    hide IsMaximal;
    forall i | from <= i < |s| && s[i] !in cs
      ensures var runs := [run] + rest; exists k :: 0 <= k < |runs| && runs[k].start <= i < runs[k].end
    {
      ConsCovers(s, cs, from, run, rest, i);
    }
  }

  lemma BoundsOf(s: string, cs: set<char>, run: Run)
    requires IsMaximal(s, cs, run)
    ensures run.start < run.end <= |s|
  {
  }

  lemma {:induction false} RunsAreMaximal(s: string, cs: set<char>, from: nat)
    requires AtBoundary(s, cs, from)
    ensures IsRunList(s, cs, from, Runs(s, cs, from))
    decreases |s| - from
  {
    hide FindFirstOf, FindFirstNotOf;
    match FindFirstNotOf(s, cs, Some(from))
    case None =>
    case Some(start) =>
      var end := EndOf(s, FindFirstOf(s, cs, Some(start)));
      assert from < start ==> s[start - 1] in cs;
      RunsAreMaximal(s, cs, end);
      ConsIsRunList(s, cs, from, Run(start, end), Runs(s, cs, end));
  }

  /** There is only one such list, so it does not matter how it is computed. */
  /** Without a stretch there is no character to find one at; with one there is. */
  lemma NoneOrSome(s: string, cs: set<char>, from: nat, a: seq<Run>, b: seq<Run>)
    requires IsRunList(s, cs, from, a) && IsRunList(s, cs, from, b) && a != []
    ensures b != []
  {
    var i := a[0].start;
    assert IsMaximal(s, cs, a[0]) && s[i] !in cs;
    var k :| 0 <= k < |b| && b[k].start <= i < b[k].end;
  }

  lemma {:induction false} RunListIsUnique(s: string, cs: set<char>, from: nat, a: seq<Run>, b: seq<Run>)
    requires IsRunList(s, cs, from, a) && IsRunList(s, cs, from, b)
    ensures a == b
    decreases |a|
  {
    hide IsRunList;
    if a != [] {
      NoneOrSome(s, cs, from, a, b);
      FirstRunsAgree(s, cs, from, a, b);
      RestIsRunList(s, cs, from, a);
      RestIsRunList(s, cs, from, b);
      RunListIsUnique(s, cs, a[0].end, a[1..], b[1..]);
      assert a == [a[0]] + a[1..] && b == [b[0]] + b[1..];
    } else if b != [] {
      NoneOrSome(s, cs, from, b, a);
    }
  }

  lemma StartsFirst(s: string, cs: set<char>, from: nat, a: seq<Run>, i: nat)
    requires IsRunList(s, cs, from, a) && a != [] && from <= i < |s| && s[i] !in cs
    ensures a[0].start <= i
  {
    var k :| 0 <= k < |a| && a[k].start <= i < a[k].end;
    if k > 0 {
      assert a[0].end < a[k].start;
    }
  }

  lemma FirstIsMaximal(s: string, cs: set<char>, from: nat, a: seq<Run>)
    requires IsRunList(s, cs, from, a) && a != []
    ensures from <= a[0].start && IsMaximal(s, cs, a[0])
  {
  }

  lemma SameStartSameRun(s: string, cs: set<char>, a: Run, b: Run)
    requires IsMaximal(s, cs, a) && IsMaximal(s, cs, b) && a.start == b.start
    ensures a == b
  {
    if a.end < |s| {
      assert s[a.end] in cs;
    }
    if b.end < |s| {
      assert s[b.end] in cs;
    }
  }

  lemma FirstRunsAgree(s: string, cs: set<char>, from: nat, a: seq<Run>, b: seq<Run>)
    requires IsRunList(s, cs, from, a) && IsRunList(s, cs, from, b) && a != [] && b != []
    ensures a[0] == b[0]
  {
    hide IsRunList;
    FirstIsMaximal(s, cs, from, a);
    FirstIsMaximal(s, cs, from, b);
    assert s[a[0].start] !in cs && s[b[0].start] !in cs;
    StartsFirst(s, cs, from, a, b[0].start);
    StartsFirst(s, cs, from, b, a[0].start);
    SameStartSameRun(s, cs, a[0], b[0]);
  }

  lemma RestIsRunList(s: string, cs: set<char>, from: nat, a: seq<Run>)
    requires IsRunList(s, cs, from, a) && a != []
    ensures IsRunList(s, cs, a[0].end, a[1..])
  {
    var rest := a[1..];
    forall i | a[0].end <= i < |s| && s[i] !in cs
      ensures exists k :: 0 <= k < |rest| && rest[k].start <= i < rest[k].end
    {
      assert from <= a[0].start;
      var k :| 0 <= k < |a| && a[k].start <= i < a[k].end;
      assert rest[k - 1] == a[k];
    }
  }

  // ---- the texts of the stretches ----

  predicate InRange(s: string, runs: seq<Run>) {
    forall k :: 0 <= k < |runs| ==> runs[k].start < runs[k].end <= |s|
  }

  function Slices(s: string, runs: seq<Run>): (texts: seq<string>)
    requires InRange(s, runs)
    ensures |texts| == |runs| && forall k :: 0 <= k < |runs| ==> texts[k] == s[runs[k].start..runs[k].end]
  {
    seq(|runs|, i requires 0 <= i < |runs| => s[runs[i].start..runs[i].end])
  }

  lemma {:induction false} RunsInRange(s: string, cs: set<char>, from: nat)
    ensures InRange(s, Runs(s, cs, from))
    decreases |s| - from
  {
    match FindFirstNotOf(s, cs, Some(from))
    case None =>
    case Some(start) => RunsInRange(s, cs, EndOf(s, FindFirstOf(s, cs, Some(start))));
  }

  /** The texts of the maximal delimiter-free stretches, in order. */
  ghost function TokensOf(s: string, cs: set<char>): seq<string> {
    RunsInRange(s, cs, 0);
    Slices(s, Runs(s, cs, 0))
  }

  /** The loop state of both tokenizers: `done` has been found, the search goes on behind `end`. */
  ghost predicate Found(s: string, cs: set<char>, done: seq<Run>, end: Option<nat>) {
    InRange(s, done) && Runs(s, cs, 0) == done + Runs(s, cs, EndOf(s, end))
  }

  lemma FindsNext(s: string, cs: set<char>, done: seq<Run>, end: Option<nat>, start: nat)
    requires Found(s, cs, done, end) && Some(start) == FindFirstNotOf(s, cs, end)
    ensures var end' := FindFirstOf(s, cs, Some(start));
            && start < EndOf(s, end') <= |s| && EndOf(s, end) < EndOf(s, end')
            && Found(s, cs, done + [Run(start, EndOf(s, end'))], end')
            && Slices(s, done + [Run(start, EndOf(s, end'))]) == Slices(s, done) + [s[start..EndOf(s, end')]]
  {
    hide FindFirstOf, FindFirstNotOf;
    var end' := FindFirstOf(s, cs, Some(start));
    var run := Run(start, EndOf(s, end'));
    var rest := Runs(s, cs, run.end);
    assert Runs(s, cs, EndOf(s, end)) == [run] + rest;
    assert done + ([run] + rest) == (done + [run]) + rest;
  }

  lemma FindsNoMore(s: string, cs: set<char>, done: seq<Run>, end: Option<nat>)
    requires Found(s, cs, done, end) && FindFirstNotOf(s, cs, end).None?
    ensures TokensOf(s, cs) == Slices(s, done)
  {
    RunsInRange(s, cs, 0);
    assert Runs(s, cs, EndOf(s, end)) == [];
    assert done + [] == done;
  }

  /** Appends the tokens of str to those already there. */
  method Tokenize(str: string, tokens: seq<string>, delimiters: set<char>) returns (all: seq<string>)
    ensures all == tokens + TokensOf(str, delimiters)
  {
    hide FindFirstOf, FindFirstNotOf, Found, TokensOf;
    all := tokens;
    var lastPos := FindFirstNotOf(str, delimiters, Some(0));
    var pos := FindFirstOf(str, delimiters, lastPos);
    ghost var done, end: Option<nat> := [], Some(0);
    NothingFound(str, delimiters);
    while pos.Some? || lastPos.Some?
      invariant end.Some? ==> end.value <= |str|
      invariant lastPos == FindFirstNotOf(str, delimiters, end)
      invariant pos == FindFirstOf(str, delimiters, lastPos)
      invariant InRange(str, done) && Found(str, delimiters, done, end)
      invariant all == tokens + Slices(str, done)
      decreases |str| - EndOf(str, end)
    {
      FindsNext(str, delimiters, done, end, lastPos.value);
      ghost var soFar := Slices(str, done);
      done, end := done + [Run(lastPos.value, EndOf(str, pos))], pos;
      var token := if pos.Some? then Substr(str, lastPos.value, pos.value - lastPos.value) else str[lastPos.value..];
      assert token == str[lastPos.value..EndOf(str, pos)];
      assert tokens + (soFar + [token]) == tokens + soFar + [token];
      all := all + [token];
      lastPos := FindFirstNotOf(str, delimiters, pos);
      pos := FindFirstOf(str, delimiters, lastPos);
    }
    FindsNoMore(str, delimiters, done, end);
  }

  lemma NothingFound(s: string, cs: set<char>)
    ensures Found(s, cs, [], Some(0))
  {
    assert [] + Runs(s, cs, 0) == Runs(s, cs, 0);
  }

  /** The non-empty texts between colons. */
  method SplitPluginTypes(types: string) returns (result: set<string>)
    ensures result == set t | t in TokensOf(types, {':'})
  {
    hide FindFirstOf, FindFirstNotOf, Found, TokensOf;
    result := {};
    var end: Option<nat> := Some(0);
    var start := FindFirstNotOf(types, {':'}, end);
    ghost var done := [];
    NothingFound(types, {':'});
    while start.Some?
      invariant end.Some? ==> end.value <= |types|
      invariant start == FindFirstNotOf(types, {':'}, end)
      invariant InRange(types, done) && Found(types, {':'}, done, end)
      invariant result == set t | t in Slices(types, done)
      decreases |types| - EndOf(types, end)
    {
      FindsNext(types, {':'}, done, end, start.value);
      ghost var soFar := Slices(types, done);
      end := FindFirstOf(types, {':'}, start);
      done := done + [Run(start.value, EndOf(types, end))];
      var token := if end.Some? then Substr(types, start.value, end.value - start.value) else types[start.value..];
      assert token == types[start.value..EndOf(types, end)];
      assert Slices(types, done) == soFar + [token];
      result := result + {token};
      start := FindFirstNotOf(types, {':'}, end);
    }
    FindsNoMore(types, {':'}, done, end);
  }
}
