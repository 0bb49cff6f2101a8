/** Replacing and splitting in utils.cc. */
module StringEdits {
  import opened Options
  import opened Texts

  /** s with every leftmost, non-overlapping occurrence of pat turned into rep. */
  function Replaced(s: string, pat: string, rep: string): string
    requires pat != ""
    decreases |s|
  {
    match Find(s, pat, 0)
    case None => s
    case Some(k) => s[..k] + rep + Replaced(s[k + |pat|..], pat, rep)
  }

  /** Edits its argument left to right, continuing after each inserted text. */
  method ReplaceSubstr(text: string, toSearch: string, replacement: string) returns (edited: string)
    requires toSearch != ""
    ensures edited == Replaced(text, toSearch, replacement)
  {
    hide Find, Replaced, Progress;
    edited := text;
    var pos: Option<nat> := Find(edited, toSearch, 0);
    ghost var head, rest := "", text;
    FirstRound(text, toSearch, replacement);
    while pos.Some?
      invariant Progress(text, toSearch, replacement, edited, pos, head, rest)
      decreases |rest|
    {
      ghost var k := NextRound(text, toSearch, replacement, edited, pos.value, head, rest);
      head, rest := head + rest[..k] + replacement, rest[k + |toSearch|..];
      edited := edited[..pos.value] + replacement + edited[pos.value + |toSearch|..];
      pos := Find(edited, toSearch, pos.value + |replacement|);
    }
    LastRound(text, toSearch, replacement, edited, head, rest);
  }

  /** The loop invariant: head is finished, rest is still to be searched. */
  ghost predicate Progress(text: string, pat: string, rep: string,
                           edited: string, pos: Option<nat>, head: string, rest: string)
    requires pat != ""
  {
    && edited == head + rest
    && pos == (match Find(rest, pat, 0) case None => None case Some(k) => Some(|head| + k))
    && Replaced(text, pat, rep) == head + Replaced(rest, pat, rep)
  }

  lemma FirstRound(text: string, pat: string, rep: string)
    requires pat != ""
    ensures Progress(text, pat, rep, text, Find(text, pat, 0), "", text)
  {
    hide Find, Replaced;
    assert "" + text == text;
    assert "" + Replaced(text, pat, rep) == Replaced(text, pat, rep);
  }

  lemma LastRound(text: string, pat: string, rep: string, edited: string, head: string, rest: string)
    requires pat != "" && Progress(text, pat, rep, edited, None, head, rest)
    ensures edited == Replaced(text, pat, rep)
  {
    hide Find;
  }

  lemma NextRound(text: string, pat: string, rep: string, edited: string, pos: nat, head: string, rest: string)
    returns (k: nat)
    requires pat != "" && Progress(text, pat, rep, edited, Some(pos), head, rest)
    ensures k + |pat| <= |rest| && pos + |pat| <= |edited|
    ensures k + |head| == pos
    ensures var edited' := edited[..pos] + rep + edited[pos + |pat|..];
            Progress(text, pat, rep, edited', Find(edited', pat, pos + |rep|),
                     head + rest[..k] + rep, rest[k + |pat|..])
  {
    hide Find, Replaced;
    k := UnfoldReplaced(rest, pat, rep);
    var head', rest' := head + rest[..k] + rep, rest[k + |pat|..];
    var edited' := edited[..pos] + rep + edited[pos + |pat|..];
    EditBehind(edited, head, rest, k, |pat|, rep);
    Regroup(head, rest[..k] + rep, Replaced(rest', pat, rep));
    Regroup(head, rest[..k], rep);
    FindBehind(edited', head', rest', pat, 0);
  }

  lemma UnfoldReplaced(s: string, pat: string, rep: string) returns (k: nat)
    requires pat != "" && Find(s, pat, 0).Some?
    ensures Find(s, pat, 0) == Some(k) && k + |pat| <= |s|
    ensures Replaced(s, pat, rep) == s[..k] + rep + Replaced(s[k + |pat|..], pat, rep)
  {
    k := Find(s, pat, 0).value;
  }

  lemma EditBehind(text: string, head: string, rest: string, k: nat, n: nat, rep: string)
    requires text == head + rest && k + n <= |rest|
    ensures text[..|head| + k] + rep + text[|head| + k + n..] == head + rest[..k] + rep + rest[k + n..]
  {
    assert text[..|head| + k] == head + rest[..k];
    assert text[|head| + k + n..] == rest[k + n..];
  }

  lemma Regroup<T>(a: seq<T>, b: seq<T>, c: seq<T>)
    ensures a + (b + c) == a + b + c
  {
  }

  /** One round of the loop: the edited text and the next position to look at. */
  function ReplaceRound(text: string, pos: nat, pat: string, rep: string): (string, Option<nat>)
    requires OccursAt(text, pat, pos)
  {
    var edited := text[..pos] + rep + text[pos + |pat|..];
    (edited, Find(edited, pat, pos + |rep|))
  }

  /** Is the loop still running after n rounds? */
  predicate RunningAfter(n: nat, text: string, pos: Option<nat>, pat: string, rep: string)
    requires pos.Some? ==> OccursAt(text, pat, pos.value)
  {
    pos.Some? && (n == 0 ||
                  var (edited, next) := ReplaceRound(text, pos.value, pat, rep);
                  RunningAfter(n - 1, edited, next, pat, rep))
  }

  /** With an empty needle the loop of ReplaceSubstr never ends, whatever the text and the replacement. */
  lemma {:induction false} EmptyNeedleRunsForever(n: nat, text: string, pos: nat, rep: string)
    requires pos <= |text|
    ensures RunningAfter(n, text, Some(pos), "", rep)
  {
    if n > 0 {
      var edited := text[..pos] + rep + text[pos..];
      EmptyNeedleRunsForever(n - 1, edited, pos + |rep|, rep);
    }
  }

  /** c mapped to f(c) at every place, everything else kept: what a one-character needle does. */
  function EachChar(s: string, f: char -> string): string {
    if s == "" then "" else f(s[0]) + EachChar(s[1..], f)
  }

  function Swap(pat: char, rep: string): char -> string {
    c => if c == pat then rep else [c]
  }

  lemma {:induction false} EachCharConcat(a: string, b: string, f: char -> string)
    ensures EachChar(a + b, f) == EachChar(a, f) + EachChar(b, f)
  {
    if a == "" {
      assert a + b == b;
    } else {
      assert (a + b)[1..] == a[1..] + b;
      EachCharConcat(a[1..], b, f);
    }
  }

  lemma {:induction false} EachCharKeeps(s: string, pat: char, rep: string)
    requires pat !in s
    ensures EachChar(s, Swap(pat, rep)) == s
  {
    if s != "" {
      EachCharKeeps(s[1..], pat, rep);
    }
  }

  lemma FindChar(s: string, c: char)
    ensures Find(s, [c], 0) == if Cut(s, {c}) == |s| then None else Some(Cut(s, {c}))
  {
    hide Find, Cut;
    FindIsFirst(s, [c], 0);
    var k := Cut(s, {c});
    assert forall i :: OccursAt(s, [c], i) <==> 0 <= i < |s| && s[i] == c by {
      assert [c][0] == c;
    }
    if k < |s| {
      assert OccursAt(s, [c], k);
    }
  }

  lemma EachCharAt(s: string, k: nat, pat: char, rep: string)
    requires k < |s| && s[k] == pat && pat !in s[..k]
    ensures EachChar(s, Swap(pat, rep)) == s[..k] + rep + EachChar(s[k + 1..], Swap(pat, rep))
  {
    var f := Swap(pat, rep);
    var head, tail := s[..k], s[k..];
    assert s == head + tail;
    EachCharConcat(head, tail, f);
    EachCharKeeps(head, pat, rep);
    assert EachChar(tail, f) == rep + EachChar(tail[1..], f);
    assert tail[1..] == s[k + 1..];
    Regroup(head, rep, EachChar(s[k + 1..], f));
  }

  /** Replacing a single character is a character-wise map. */
  lemma {:induction false} ReplacedIsEachChar(s: string, pat: char, rep: string)
    ensures Replaced(s, [pat], rep) == EachChar(s, Swap(pat, rep))
    decreases |s|
  {
    hide Find, EachChar, Swap;
    FindChar(s, pat);
    var k := Cut(s, {pat});
    if k < |s| {
      EachCharAt(s, k, pat, rep);
      ReplacedIsEachChar(s[k + 1..], pat, rep);
    } else {
      EachCharKeeps(s, pat, rep);
    }
  }

  // ---- splitting ----

  /** The pieces that std::getline delivers: a final empty piece is not delivered. */
  function Pieces(s: string, delimiter: char): seq<string>
    decreases |s|
  {
    var k := Cut(s, {delimiter});
    if s == "" then []
    else if k == |s| then [s]
    else [s[..k]] + Pieces(s[k + 1..], delimiter)
  }

  /** Each round extracts one piece from the stream, and its delimiter with it. */
  method SplitString(s: string, delimiter: char) returns (pieces: seq<string>)
    ensures pieces == Pieces(s, delimiter)
  {
    hide Cut, Pieces;
    NoPieces(delimiter);
    pieces := [];
    var stream := s;
    assert [] + Pieces(s, delimiter) == Pieces(s, delimiter);
    while stream != ""
      invariant pieces + Pieces(stream, delimiter) == Pieces(s, delimiter)
      decreases |stream|
    {
      ghost var soFar, before := pieces, stream;
      var end := Cut(stream, {delimiter});
      pieces := pieces + [stream[..end]];
      stream := if end < |stream| then stream[end + 1..] else "";
      FirstPiece(before, delimiter);
      Regroup(soFar, [before[..end]], Pieces(stream, delimiter));
    }
    assert pieces + [] == pieces;
  }

  lemma FirstPiece(s: string, delimiter: char)
    requires s != ""
    ensures var k := Cut(s, {delimiter});
            Pieces(s, delimiter) == [s[..k]] + Pieces(if k < |s| then s[k + 1..] else "", delimiter)
  {
    assert s[..|s|] == s;
  }

  /** Pieces glued together again with the delimiter between neighbours. */
  function Join(pieces: seq<string>, delimiter: char): string {
    if pieces == [] then ""
    else if |pieces| == 1 then pieces[0]
    else pieces[0] + [delimiter] + Join(pieces[1..], delimiter)
  }

  lemma {:induction false} PiecesAreFree(s: string, delimiter: char)
    ensures forall p :: p in Pieces(s, delimiter) ==> delimiter !in p
    ensures s != "" <==> Pieces(s, delimiter) != []
    decreases |s|
  {
    var k := Cut(s, {delimiter});
    if k < |s| {
      PiecesAreFree(s[k + 1..], delimiter);
    }
  }

  lemma JoinCons(piece: string, rest: seq<string>, delimiter: char)
    requires rest != []
    ensures Join([piece] + rest, delimiter) == piece + [delimiter] + Join(rest, delimiter)
  {
    assert ([piece] + rest)[1..] == rest;
  }

  /** A text around one of its delimiters, whole and without its last character. */
  lemma Seam(s: string, k: nat)
    requires k < |s|
    ensures s == s[..k] + [s[k]] + s[k + 1..]
    ensures k + 1 < |s| ==> s[..|s| - 1] == s[..k] + [s[k]] + s[k + 1..][..|s| - k - 2]
    ensures k + 1 == |s| ==> s[..|s| - 1] == s[..k]
  {
  }

  lemma CutIsDelimiter(s: string, delimiter: char)
    ensures var k := Cut(s, {delimiter}); k <= |s| && (k < |s| ==> s[k] == delimiter)
    ensures Cut(s, {delimiter}) == |s| && s != "" ==> s[|s| - 1] != delimiter
  {
    hide Cut;
  }

  lemma NoPieces(delimiter: char)
    ensures Pieces("", delimiter) == [] && Join([], delimiter) == ""
  {
  }

  /** Joining gives the text back, except that one delimiter at its very end is lost. */
  lemma {:induction false} JoinPieces(s: string, delimiter: char)
    ensures Join(Pieces(s, delimiter), delimiter) ==
            if s != "" && s[|s| - 1] == delimiter then s[..|s| - 1] else s
    decreases |s|
  {
    hide Cut, Join, Pieces;
    var k := Cut(s, {delimiter});
    CutIsDelimiter(s, delimiter);
    NoPieces(delimiter);
    if s != "" {
      FirstPiece(s, delimiter);
      JoinOne(s[..k], delimiter);
      assert [s[..k]] + [] == [s[..k]];
      if k < |s| {
        var rest := s[k + 1..];
        Seam(s, k);
        JoinPieces(rest, delimiter);
        PiecesAreFree(rest, delimiter);
        if rest != "" {
          JoinCons(s[..k], Pieces(rest, delimiter), delimiter);
        }
      } else {
        assert s[..k] == s;
      }
    }
  }

  lemma JoinOne(piece: string, delimiter: char)
    ensures Join([piece], delimiter) == piece
  {
  }

  lemma {:induction false} JoinGrows(pieces: seq<string>, last: string, delimiter: char)
    requires pieces != []
    ensures Join(pieces + [last], delimiter) == Join(pieces, delimiter) + [delimiter] + last
  {
    var all := pieces + [last];
    if |pieces| == 1 {
      assert all[1..] == [last];
    } else {
      JoinGrows(pieces[1..], last, delimiter);
      assert all[1..] == pieces[1..] + [last];
      var start := pieces[0] + [delimiter];
      Regroup(start, Join(pieces[1..], delimiter), [delimiter] + last);
      Regroup(Join(pieces[1..], delimiter), [delimiter], last);
      Regroup(Join(pieces, delimiter), [delimiter], last);
    }
  }

  /** One delimiter behind a piece without delimiters cuts it off. */
  lemma PieceCutOff(piece: string, rest: string, delimiter: char)
    requires Free(piece, {delimiter})
    ensures Pieces(piece + [delimiter] + rest, delimiter) == [piece] + Pieces(rest, delimiter)
  {
    hide Cut, Pieces;
    var s := piece + ([delimiter] + rest);
    Regroup(piece, [delimiter], rest);
    CutAtSeam(s, piece, [delimiter] + rest, {delimiter});
    FirstPiece(s, delimiter);
    assert s[..|piece|] == piece && s[|piece| + 1..] == rest;
  }

  lemma OnePiece(piece: string, delimiter: char)
    requires Free(piece, {delimiter}) && piece != ""
    ensures Pieces(piece, delimiter) == [piece]
  {
    hide Cut, Pieces;
    CutAtSeam(piece, piece, "", {delimiter});
    FirstPiece(piece, delimiter);
    NoPieces(delimiter);
  }
}
