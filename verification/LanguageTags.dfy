/**
 BCP47 tags (util/bcp47.cc, after section 2.1 of RFC 5646) and the localized error pages
 they lead to (GetErrorPagePaths in util/utils.cc).
 */
module LanguageTags {
  import opened Options
  import opened Texts
  import opened StringEdits

  datatype Tag = Tag(language: string, script: string, region: string) {

    function ToString(): string {
      language + (if script == "" then "" else "-" + script) + (if region == "" then "" else "-" + region)
    }

    /** What the three groups of the regular expression accept. */
    predicate Accepted() {
      && (|language| == 2 || |language| == 3) && AllIn(language, LOWER)
      && (script == "" || IsScript(script))
      && (region == "" || IsRegion(region))
    }
  }

  const LOWER := ('a', 'z')
  const UPPER := ('A', 'Z')
  const DIGITS := ('0', '9')
  /** The range A-z of the expression: it also contains [ \ ] ^ _ and the backquote. */
  const SCRIPT_CHARS := ('A', 'z')

  predicate AllIn(s: string, range: (char, char)) {
    forall i :: 0 <= i < |s| ==> range.0 <= s[i] <= range.1
  }

  predicate IsRegion(s: string) {
    (|s| == 2 && AllIn(s, UPPER)) || (|s| == 3 && AllIn(s, DIGITS))
  }

  predicate IsScript(s: string) {
    |s| == 4 && AllIn(s, SCRIPT_CHARS)
  }

  /** The part behind the language: nothing, a script, a region, or a script and a region. */
  function ParseSubtags(rest: string): Option<(string, string)> {
    if rest == "" then Some(("", ""))
    else if rest[0] != '-' then None
    else if IsRegion(rest[1..]) then Some(("", rest[1..]))
    else if |rest| < 5 || !IsScript(rest[1..5]) then None
    else if |rest| == 5 then Some((rest[1..], ""))
    else if rest[5] == '-' && IsRegion(rest[6..]) then Some((rest[1..5], rest[6..]))
    else None
  }

  function FromString(s: string): Option<Tag> {
    var n := if |s| >= 3 && s[2] != '-' then 3 else 2;
    if |s| < n || !AllIn(s[..n], LOWER) then None
    else
      match ParseSubtags(s[n..])
      case None => None
      case Some((script, region)) => Some(Tag(s[..n], script, region))
  }

  lemma SubtagsReadBack(script: string, region: string)
    requires script == "" || IsScript(script)
    requires region == "" || IsRegion(region)
    ensures ParseSubtags((if script == "" then "" else "-" + script) + (if region == "" then "" else "-" + region))
         == Some((script, region))
  {
    var text := (if script == "" then "" else "-" + script) + (if region == "" then "" else "-" + region);
    if script == "" {
      assert text == if region == "" then "" else "-" + region;
    } else {
      assert text[1..5] == script;
      assert region == "" ==> text[1..] == script;
      assert region != "" ==> text[6..] == region;
      assert !IsRegion(text[1..]) by { assert |text[1..]| >= 4; }
    }
  }

  lemma SubtagsPrint(rest: string)
    ensures match ParseSubtags(rest)
            case None => true
            case Some((script, region)) =>
              && (script == "" || IsScript(script)) && (region == "" || IsRegion(region))
              && rest == (if script == "" then "" else "-" + script) + (if region == "" then "" else "-" + region)
  {
    hide AllIn;
    if rest != "" && rest[0] == '-' {
      assert rest == "" + ("-" + rest[1..]) == ("-" + rest[1..]) + "";
      if |rest| == 5 {
        assert rest[1..5] == rest[1..];
      } else if |rest| > 5 && rest[5] == '-' {
        assert rest == ("-" + rest[1..5]) + ("-" + rest[6..]);
      }
    }
  }

  /**
   Parsing and printing are inverse to each other on exactly the accepted tags; in particular
   a text can be split into language, script and region in one way only.
   */
  lemma ParsesExactlyWhatPrints(s: string, tag: Tag)
    ensures FromString(s) == Some(tag) <==> tag.Accepted() && tag.ToString() == s
  {
    hide FromString, Tag.Accepted, Tag.ToString;
    if FromString(s) == Some(tag) {
      ParsedPrints(s, tag);
    }
    if tag.Accepted() && tag.ToString() == s {
      PrintedParses(s, tag);
    }
  }

  lemma ParsedPrints(s: string, tag: Tag)
    requires FromString(s) == Some(tag)
    ensures tag.Accepted() && tag.ToString() == s
  {
    hide ParseSubtags;
    var n := |tag.language|;
    SubtagsPrint(s[n..]);
    assert s == s[..n] + s[n..];
    PrintsAs(tag);
  }

  // ---- the regular expression ----

  /** A character range with a number of repetitions, and what the expression builds from it. */
  datatype Regex = Chars(low: char, high: char, least: nat, most: nat)
                 | Then(first: Regex, second: Regex) | Or(left: Regex, right: Regex) | Maybe(inner: Regex)

  ghost predicate Matches(r: Regex, s: string) {
    match r
    case Chars(low, high, least, most) => least <= |s| <= most && forall i :: 0 <= i < |s| ==> low <= s[i] <= high
    case Then(first, second) => exists k :: 0 <= k <= |s| && Matches(first, s[..k]) && Matches(second, s[k..])
    case Or(left, right) => Matches(left, s) || Matches(right, s)
    case Maybe(inner) => s == "" || Matches(inner, s)
  }

  const HYPHEN := Chars('-', '-', 1, 1)
  const LANGUAGE := Chars('a', 'z', 2, 3)
  const SCRIPT := Chars('A', 'z', 4, 4)
  const REGION := Or(Chars('A', 'Z', 2, 2), Chars('0', '9', 3, 3))
  const TAG := Then(LANGUAGE, Then(Maybe(Then(HYPHEN, SCRIPT)), Maybe(Then(HYPHEN, REGION))))

  /**
   The parser accepts exactly the texts that match the regular expression, and its three groups
   are the three parts.
   */
  lemma AcceptsTheExpression(s: string)
    ensures FromString(s).Some? <==> Matches(TAG, s)
    ensures FromString(s).Some? ==>
              var tag := FromString(s).value;
              && Matches(LANGUAGE, tag.language)
              && (tag.script == "" || Matches(SCRIPT, tag.script))
              && (tag.region == "" || Matches(REGION, tag.region))
  {
    hide FromString;
    if FromString(s).Some? {
      ParsedMatches(s, FromString(s).value);
    }
    if Matches(TAG, s) {
      MatchingIsParsed(s);
    }
  }

  lemma GroupsMatch(tag: Tag)
    ensures tag.Accepted() <==>
            && Matches(LANGUAGE, tag.language)
            && (tag.script == "" || Matches(SCRIPT, tag.script))
            && (tag.region == "" || Matches(REGION, tag.region))
    ensures Matches(HYPHEN, "-")
  {
  }

  lemma ThenMatches(first: Regex, second: Regex, a: string, b: string)
    requires Matches(first, a) && Matches(second, b)
    ensures Matches(Then(first, second), a + b)
  {
    assert (a + b)[..|a|] == a && (a + b)[|a|..] == b;
  }

  lemma ParsedMatches(s: string, tag: Tag)
    requires FromString(s) == Some(tag)
    ensures Matches(TAG, s) && tag.Accepted()
  {
    hide FromString, Matches;
    ParsedPrints(s, tag);
    PrintsAs(tag);
    GroupsMatch(tag);
    var script := if tag.script == "" then "" else "-" + tag.script;
    var region := if tag.region == "" then "" else "-" + tag.region;
    MaybeMatches(SCRIPT, tag.script);
    MaybeMatches(REGION, tag.region);
    ThenMatches(Maybe(Then(HYPHEN, SCRIPT)), Maybe(Then(HYPHEN, REGION)), script, region);
    ThenMatches(LANGUAGE, TAG.second, tag.language, script + region);
  }

  lemma MaybeMatches(r: Regex, text: string)
    requires text == "" || Matches(r, text)
    ensures Matches(Maybe(Then(HYPHEN, r)), if text == "" then "" else "-" + text)
  {
    if text != "" {
      ThenMatches(HYPHEN, r, "-", text);
    }
  }

  /** What an optional group with its hyphen has matched. */
  lemma HyphenMatched(r: Regex, s: string) returns (text: string)
    requires Matches(Maybe(Then(HYPHEN, r)), s) && !Matches(r, "")
    ensures text == "" || Matches(r, text)
    ensures s == if text == "" then "" else "-" + text
  {
    if s == "" {
      text := "";
    } else {
      var k :| 0 <= k <= |s| && Matches(HYPHEN, s[..k]) && Matches(r, s[k..]);
      text := s[k..];
      assert s == s[..k] + s[k..] && s[..k] == "-";
    }
  }

  lemma MatchingIsParsed(s: string)
    requires Matches(TAG, s)
    ensures FromString(s).Some?
  {
    hide FromString, Matches;
    var k, j := MatchedSplit(s);
    var script := HyphenMatched(SCRIPT, s[k..][..j]);
    var region := HyphenMatched(REGION, s[k..][j..]);
    var tag := Tag(s[..k], script, region);
    GroupsMatch(tag);
    PrintsAs(tag);
    assert s == s[..k] + (s[k..][..j] + s[k..][j..]);
    PrintedParses(s, tag);
  }

  lemma MatchedSplit(s: string) returns (k: nat, j: nat)
    requires Matches(TAG, s)
    ensures k <= |s| && j <= |s[k..]|
    ensures Matches(LANGUAGE, s[..k]) && Matches(Maybe(Then(HYPHEN, SCRIPT)), s[k..][..j])
    ensures Matches(Maybe(Then(HYPHEN, REGION)), s[k..][j..])
    ensures !Matches(SCRIPT, "") && !Matches(REGION, "")
  {
    k :| 0 <= k <= |s| && Matches(LANGUAGE, s[..k]) && Matches(TAG.second, s[k..]);
    j :| 0 <= j <= |s[k..]| && Matches(TAG.second.first, s[k..][..j]) && Matches(TAG.second.second, s[k..][j..]);
  }

  /** Where the language ends: a third character that is no hyphen belongs to it. */
  lemma LanguageEnds(s: string, language: string, rest: string)
    requires s == language + rest && 2 <= |language| <= 3 && AllIn(language, LOWER)
    requires rest == "" || rest[0] == '-'
    ensures s[..|language|] == language && s[|language|..] == rest
    ensures (|s| >= 3 && s[2] != '-') <==> |language| == 3
  {
    if |language| == 3 {
      assert s[2] == language[2];
    } else if rest != "" {
      assert s[2] == rest[0];
    }
  }

  lemma PrintedParses(s: string, tag: Tag)
    requires tag.Accepted() && tag.ToString() == s
    ensures FromString(s) == Some(tag)
  {
    hide ParseSubtags, Tag.ToString;
    SubtagsReadBack(tag.script, tag.region);
    PrintsAs(tag);
    var rest := s[|tag.language|..];
    SubtagsStart(tag.script, tag.region);
    LanguageEnds(s, tag.language, rest);
  }

  lemma SubtagsStart(script: string, region: string)
    ensures var rest := (if script == "" then "" else "-" + script) + (if region == "" then "" else "-" + region);
            rest == "" || rest[0] == '-'
  {
  }

  lemma PrintsAs(tag: Tag)
    ensures var rest := (if tag.script == "" then "" else "-" + tag.script)
                        + (if tag.region == "" then "" else "-" + tag.region);
            tag.ToString() == tag.language + rest && tag.ToString()[|tag.language|..] == rest
  {
    var script := if tag.script == "" then "" else "-" + tag.script;
    var region := if tag.region == "" then "" else "-" + tag.region;
    Regroup(tag.language, script, region);
    assert (tag.language + (script + region))[|tag.language|..] == script + region;
  }

  /** The code takes more scripts than the four letters of RFC 5646: exactly those with one of six other characters. */
  lemma ScriptNeedNotBeLetters(tag: Tag)
    requires tag.Accepted()
    ensures (forall i :: 0 <= i < |tag.script| ==> 'A' <= tag.script[i] <= 'Z' || 'a' <= tag.script[i] <= 'z')
       <==> (forall i :: 0 <= i < |tag.script| ==> tag.script[i] !in {'[', '\\', ']', '^', '_', '`'})
  {
  }

  lemma AcceptedWithoutLetters()
    ensures FromString("en-A_^z") == Some(Tag("en", "A_^z", ""))
  {
    hide FromString;
    var tag := Tag("en", "A_^z", "");
    assert "en" + ("-" + "A_^z") == "en-A_^z" && "en-A_^z" + "" == "en-A_^z";
    ExampleLetters();
    ParsesExactlyWhatPrints("en-A_^z", tag);
  }

  lemma ExampleLetters()
    ensures AllIn("en", LOWER) && IsScript("A_^z")
  {
    assert forall i :: 0 <= i < 2 ==> 'a' <= "en"[i] <= 'z';
    assert forall i :: 0 <= i < 4 ==> 'A' <= "A_^z"[i] <= 'z';
  }

  // ---- the error pages ----

  const RESOURCES := "/resources/"
  const HTML := "/html/"

  /** The error pages to try, for an error page split into directory and file name. */
  method GetErrorPagePaths(location: string, searchPath: string, fileName: string, language: string)
    returns (result: seq<string>)
    ensures result == if location == "" then [] else ErrorPagePaths(searchPath, fileName, FromString(language))
  {
    if location == "" {
      return [];
    }
    var pieces := FromString(language);
    result := [];
    if pieces.Some? {
      var tag := pieces.value;
      ghost var dirs := Directories(tag);
      if tag.script != "" {
        var directory := tag.language + "/" + tag.script;
        if tag.region != "" {
          directory := directory + "/" + tag.region;
          Regroup(tag.language + "/" + tag.script, "/", tag.region);
        }
        result := result + [PathIn(searchPath, directory, fileName)];
        assert result[0] == PathIn(searchPath, dirs[0], fileName);
      }
      if tag.region != "" {
        result := result + [PathIn(searchPath, tag.language + "/" + tag.region, fileName)];
      }
      result := result + [PathIn(searchPath, tag.language, fileName)];
      assert |result| == |dirs| && forall i :: 0 <= i < |dirs| ==> result[i] == PathIn(searchPath, dirs[i], fileName);
    }
    result := result + [searchPath + "/resources/html/" + fileName];
    result := result + [searchPath + "/" + fileName];
  }

  /** The directories for a tag, most specific first: each drops something of the one before. */
  function Directories(tag: Tag): seq<string> {
    var scripts := if tag.script == "" then []
                   else [tag.language + "/" + tag.script + (if tag.region == "" then "" else "/" + tag.region)];
    var regions := if tag.region == "" then [] else [tag.language + "/" + tag.region];
    scripts + regions + [tag.language]
  }

  function PathIn(searchPath: string, directory: string, fileName: string): string {
    searchPath + RESOURCES + directory + HTML + fileName
  }

  function ErrorPagePaths(searchPath: string, fileName: string, tag: Option<Tag>): (paths: seq<string>)
  {
    var dirs := if tag.None? then [] else Directories(tag.value);
    seq(|dirs|, i requires 0 <= i < |dirs| => PathIn(searchPath, dirs[i], fileName))
    + [searchPath + "/resources/html/" + fileName, searchPath + "/" + fileName]
  }

  /** Every fallback is strictly shorter than the one before it, so none is tried twice. */
  lemma FallbacksGetShorter(searchPath: string, fileName: string, language: string)
    ensures var paths := ErrorPagePaths(searchPath, fileName, FromString(language));
            && 2 <= |paths| <= 5
            && forall i, j :: 0 <= i < j < |paths| ==> |paths[j]| < |paths[i]|
  {
    var tag := FromString(language);
    if tag.Some? {
      ParsesExactlyWhatPrints(language, tag.value);
      DirectoryLengths(tag.value);
      var dirs, paths := Directories(tag.value), ErrorPagePaths(searchPath, fileName, tag);
      assert forall i :: 0 <= i < |dirs| ==>
                           paths[i] == PathIn(searchPath, dirs[i], fileName)
                           && |paths[i]| == |searchPath| + |RESOURCES| + |dirs[i]| + |HTML| + |fileName|;
    }
  }

  lemma DirectoryLengths(tag: Tag)
    requires tag.Accepted()
    ensures var dirs := Directories(tag);
            && 1 <= |dirs| <= 3
            && (forall i :: 0 <= i < |dirs| ==> |dirs[i]| > 0)
            && forall i, j :: 0 <= i < j < |dirs| ==> |dirs[j]| < |dirs[i]|
  {
  }

  // ---- which pages these are ----

  /** A page in the directory below "resources" that has exactly these names, one below the other. */
  ghost predicate LiesIn(path: string, searchPath: string, names: seq<string>, fileName: string) {
    exists directory ::
      Pieces(directory, '/') == names && path == searchPath + "/resources/" + directory + "/html/" + fileName
  }

  function NonEmpty(names: seq<string>): seq<string> {
    if names == [] then [] else (if names[0] == "" then [] else [names[0]]) + NonEmpty(names[1..])
  }

  /**
   The pages for a tag: below its language, script and region as far as it has them, if it has a
   script; below its language and region, if it has a region; below its language.
   */
  ghost predicate Localized(paths: seq<string>, searchPath: string, fileName: string, tag: Tag) {
    var n := (if tag.script == "" then 0 else 1) + (if tag.region == "" then 0 else 1);
    && |paths| == n + 1
    && (tag.script != "" ==> LiesIn(paths[0], searchPath, NonEmpty([tag.language, tag.script, tag.region]), fileName))
    && (tag.region != "" ==> LiesIn(paths[n - 1], searchPath, [tag.language, tag.region], fileName))
    && LiesIn(paths[n], searchPath, [tag.language], fileName)
  }

  /** The pages for every language: the localized ones if it is a tag that is accepted, and then the two plain ones. */
  lemma PathsAreLocalized(searchPath: string, fileName: string, language: string)
    ensures var paths := ErrorPagePaths(searchPath, fileName, FromString(language));
            var n := |paths| - 2;
            && n >= 0
            && paths[n] == searchPath + "/resources/html/" + fileName && paths[n + 1] == searchPath + "/" + fileName
            && (n == 0 <==> FromString(language).None?)
            && (n > 0 ==> Localized(paths[..n], searchPath, fileName, FromString(language).value))
  {
    hide FromString, Localized, Directories;
    if FromString(language).Some? {
      var tag := FromString(language).value;
      ParsedPrints(language, tag);
      DirectoryLengths(tag);
      TagIsLocalized(searchPath, fileName, tag);
      var dirs, paths := Directories(tag), ErrorPagePaths(searchPath, fileName, Some(tag));
      assert paths[..|dirs|] == seq(|dirs|, i requires 0 <= i < |dirs| => PathIn(searchPath, dirs[i], fileName));
    }
  }

  lemma TagIsLocalized(searchPath: string, fileName: string, tag: Tag)
    requires tag.Accepted()
    ensures var dirs := Directories(tag);
            Localized(seq(|dirs|, i requires 0 <= i < |dirs| => PathIn(searchPath, dirs[i], fileName)),
                      searchPath, fileName, tag)
  {
    hide Tag.Accepted, NonEmpty, Pieces;
    DirectoryNames(tag);
    var dirs := Directories(tag);
    forall i | 0 <= i < |dirs|
      ensures LiesIn(PathIn(searchPath, dirs[i], fileName), searchPath, Pieces(dirs[i], '/'), fileName)
    {
    }
  }

  lemma DirectoryNames(tag: Tag)
    requires tag.Accepted()
    ensures var dirs := Directories(tag);
            var n := |dirs| - 1;
            && n == (if tag.script == "" then 0 else 1) + (if tag.region == "" then 0 else 1)
            && (tag.script != "" ==> Pieces(dirs[0], '/') == NonEmpty([tag.language, tag.script, tag.region]))
            && (tag.region != "" ==> Pieces(dirs[n - 1], '/') == [tag.language, tag.region])
            && Pieces(dirs[n], '/') == [tag.language]
  {
    hide Pieces;
    NamesAreFree(tag);
    OnePiece(tag.language, '/');
    if tag.region != "" {
      OnePiece(tag.region, '/');
      PieceCutOff(tag.language, tag.region, '/');
    }
    if tag.script != "" {
      OnePiece(tag.script, '/');
      PieceCutOff(tag.language, tag.script, '/');
      PieceCutOff(tag.script, tag.region, '/');
      PieceCutOff(tag.language, tag.script + "/" + tag.region, '/');
      DirectoryText(tag.language, tag.script, tag.region);
      ThreeNames(tag.language, tag.script, tag.region);
    }
  }

  lemma DirectoryText(language: string, script: string, region: string)
    ensures language + "/" + script + "" == language + "/" + script
    ensures language + "/" + script + ("/" + region) == language + "/" + (script + "/" + region)
  {
  }

  lemma NamesAreFree(tag: Tag)
    requires tag.Accepted()
    ensures tag.language != "" && Free(tag.language, {'/'}) && Free(tag.script, {'/'}) && Free(tag.region, {'/'})
  {
  }

  lemma ThreeNames(a: string, b: string, c: string)
    requires a != "" && b != ""
    ensures NonEmpty([a, b, c]) == if c == "" then [a, b] else [a, b, c]
  {
    assert [a, b, c][1..] == [b, c] && [b, c][1..] == [c] && [c][1..] == [];
    assert NonEmpty([c]) == if c == "" then [] else [c];
  }
}
