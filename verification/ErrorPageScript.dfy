/**
 The query string between wam::Url::SetQuery, which writes it, and getUrlParams in
 html-ose/geterror.js, which reads it on the error page.
 */
module ErrorPageScript {
  import opened Options
  import opened Texts
  import opened StringEdits
  import opened PercentEncoding
  import opened Urls

  datatype JsString = Undefined | Str(text: string)

  /** text.split(separator) for a one-character separator. */
  function Split(text: string, separator: char): seq<string>
    decreases |text|
  {
    var k := Cut(text, {separator});
    if k == |text| then [text] else [text[..k]] + Split(text[k + 1..], separator)
  }

  /** href.slice(href.indexOf("?") + 1): the whole text when there is no question mark. */
  function Parameters(href: string): string {
    if '?' in href then From(href, {'?'})[1..] else href
  }

  /** What the reader makes of its list of "key=value" texts. */
  function Lookup(params: seq<string>, target: string): JsString {
    if params == [] then Str("")
    else
      var parts := Split(params[0], '=');
      if parts[0] == target then if |parts| > 1 then Str(parts[1]) else Undefined
      else Lookup(params[1..], target)
  }

  method GetUrlParams(href: string, target: string) returns (value: JsString)
    ensures value == Lookup(Split(Parameters(href), '&'), target)
  {
    var paramArray := Split(Parameters(href), '&');
    for i := 0 to |paramArray|
      invariant Lookup(paramArray, target) == Lookup(paramArray[i..], target)
    {
      var targetArray := Split(paramArray[i], '=');
      if targetArray[0] == target {
        if |targetArray| > 1 {
          return Str(targetArray[1]);
        }
        return Undefined;
      }
    }
    return Str("");
  }

  /** The text in front of the first "=", the whole text if it has none. */
  function KeyOf(param: string): string {
    Before(param, {'='})
  }

  /**
   The reader takes the first parameter with the asked key: what stands between its first and its
   second "=" or its end, "undefined" if it has no "=" at all; without such a parameter, nothing.
   */
  lemma {:induction false} LookupMeans(params: seq<string>, target: string)
    ensures (forall i :: 0 <= i < |params| ==> KeyOf(params[i]) != target) ==> Lookup(params, target) == Str("")
    ensures forall i :: 0 <= i < |params| && KeyOf(params[i]) == target
                        && (forall j :: 0 <= j < i ==> KeyOf(params[j]) != target) ==>
                          Lookup(params, target) ==
                          if '=' in params[i] then Str(KeyOf(From(params[i], {'='})[1..])) else Undefined
  {
    hide Cut, Lookup, Split;
    LookupNothing(target);
    if params != [] {
      LookupFirst(params, target);
      FirstTwoPieces(params[0]);
      LookupMeans(params[1..], target);
      assert forall i :: 0 < i < |params| ==> params[i] == params[1..][i - 1];
    }
  }

  lemma FirstTwoPieces(param: string)
    ensures var parts := Split(param, '=');
            && |parts| >= 1 && parts[0] == KeyOf(param) && (|parts| > 1 <==> '=' in param)
            && (|parts| > 1 ==> |From(param, {'='})| > 0 && parts[1] == KeyOf(From(param, {'='})[1..]))
  {
    var k := Cut(param, {'='});
    if k < |param| {
      assert param[k] == '=';
      assert From(param, {'='})[1..] == param[k + 1..];
    } else {
      assert param[..k] == param;
    }
  }

  /** Splitting undoes joining when no piece contains the separator. */
  lemma {:induction false} SplitJoin(pieces: seq<string>, separator: char)
    requires pieces != [] && forall p :: p in pieces ==> Free(p, {separator})
    ensures Split(Join(pieces, separator), separator) == pieces
  {
    var text := Join(pieces, separator);
    if |pieces| == 1 {
      assert pieces == [text];
      CutAtSeam(text, text, "", {separator});
    } else {
      var rest := Join(pieces[1..], separator);
      SplitJoin(pieces[1..], separator);
      assert text == pieces[0] + ([separator] + rest);
      CutAtSeam(text, pieces[0], [separator] + rest, {separator});
      assert text[|pieces[0]| + 1..] == rest;
    }
  }

  /** The value of the first pair with this key. */
  function FirstValue(pairs: seq<(string, string)>, key: string): Option<string> {
    if pairs == [] then None
    else if CStr(pairs[0].0) == key then Some(pairs[0].1)
    else FirstValue(pairs[1..], key)
  }

  lemma ItemSplits(pair: (string, string))
    ensures Split(Item(pair), '=') == [Escape(pair.0), Escape(pair.1)]
    ensures Free(Item(pair), {'&', '?', '#'})
  {
    hide EachChar;
    EscapedIsFree(CStr(pair.0));
    EscapedIsFree(CStr(pair.1));
    var pieces := [Escape(pair.0), Escape(pair.1)];
    assert pieces[1..] == [pieces[1]];
    assert Join(pieces, '=') == Item(pair);
    SplitJoin(pieces, '=');
  }

  lemma EscapedKeyMatches(key: string, target: string)
    requires AllUnreserved(target)
    ensures Escape(key) == target <==> CStr(key) == target
  {
    UnreservedKept(target);
    DecodeEscaped(key);
    DecodeEscaped(target);
  }

  lemma {:induction false} LookupInItems(pairs: seq<(string, string)>, target: string)
    requires AllUnreserved(target)
    ensures Lookup(Items(pairs), target) ==
            match FirstValue(pairs, target) case None => Str("") case Some(v) => Str(Escape(v))
    ensures forall item :: item in Items(pairs) ==> Free(item, {'&', '?', '#'})
  {
    hide Split, Escape, Item;
    if pairs != [] {
      ItemSplits(pairs[0]);
      EscapedKeyMatches(pairs[0].0, target);
      LookupInItems(pairs[1..], target);
      assert Items(pairs)[1..] == Items(pairs[1..]);
    }
  }

  /**
   For every list of pairs, the reader finds the escaped value of the first pair with the
   asked key, and the empty text when there is no such pair. Without any pair there is no
   question mark, and the reader takes the URL itself for its parameters.
   */
  lemma QueryReadsBack(base: string, pairs: seq<(string, string)>, target: string)
    requires '?' !in base
    requires AllUnreserved(target)
    ensures Lookup(Split(Parameters(base + QueryText(pairs)), '&'), target) ==
            if pairs == [] then Lookup(Split(base, '&'), target)
            else match FirstValue(pairs, target) case None => Str("") case Some(v) => Str(Escape(v))
  {
    hide Split, Lookup, Items, Join;
    var joined := Join(Items(pairs), '&');
    var href := base + QueryText(pairs);
    if pairs == [] {
      assert href == base;
    } else {
      LookupInItems(pairs, target);
      SomeItems(pairs);
      SplitJoin(Items(pairs), '&');
      assert href == base + ("?" + joined);
      assert href[|base|] == '?';
      CutAtSeam(href, base, "?" + joined, {'?'});
    }
  }

  // ---- the URL of the error page ----

  const ERROR_CODE := "errorCode"
  const FAILED_URL := "failedUrl"

  /** The query that LoadErrorPage builds. */
  function ErrorQuery(errorCode: string, failedUrl: string): seq<(string, string)> {
    [(ERROR_CODE, errorCode)] + if failedUrl == "" then [] else [(FAILED_URL, failedUrl)]
  }

  method ErrorPageUrl(page: string, errorCode: string, failedUrl: string) returns (href: string)
    requires |page| <= MAX_SIZE
    ensures href == Parse(page).(query := QueryText(ErrorQuery(errorCode, failedUrl))).ToString()
  {
    hide Parse, QueryText;
    var errorUrl := new Url(page);
    var query := [(ERROR_CODE, errorCode)];
    if failedUrl != "" {
      query := query + [(FAILED_URL, failedUrl)];
    }
    assert query == ErrorQuery(errorCode, failedUrl);
    errorUrl.SetQuery(query);
    href := errorUrl.uri + errorUrl.query + errorUrl.fragment;
  }

  /** decodeURIComponent of the value of the first parameter with this key. */
  function ReadValue(params: seq<string>, target: string): Option<string> {
    match Lookup(params, target)
    case Undefined => Some("undefined")
    case Str(text) => DecodeURIComponent(text)
  }

  /** decodeURIComponent(getUrlParams(target)) */
  function ReadParam(href: string, target: string): Option<string> {
    ReadValue(Split(Parameters(href), '&'), target)
  }

  /** Is there a parameter with this key? */
  predicate Keyed(params: seq<string>, target: string) {
    params != [] && (Split(params[0], '=')[0] == target || Keyed(params[1..], target))
  }

  /** What the reader takes for parameters in front of the failed URL: also what follows a '?' in the page's own URL. */
  function Earlier(base: string, errorCode: string): string {
    (if '?' in base then From(base, {'?'})[1..] + "?" else "") + Item((ERROR_CODE, errorCode))
  }

  /**
   What the script reads on an error page with these parts. The failed URL is read back exactly
   if no earlier parameter has its name (or one has, with just this value) and the page has no
   fragment; without a failed URL, nothing is read back exactly if no parameter has the name.
   The error code is read without decoding; a number is written as it is.
   */
  predicate ReadsBack(page: UriParts, errorCode: string, failedUrl: string) {
    var href := page.(query := QueryText(ErrorQuery(errorCode, failedUrl))).ToString();
    var earlier := Earlier(page.uri, errorCode);
    && (failedUrl != "" ==>
          (ReadParam(href, "failedUrl") == Some(CStr(failedUrl)) <==>
           if Keyed(Split(earlier, '&'), "failedUrl")
           then ReadValue(Split(earlier, '&'), "failedUrl") == Some(CStr(failedUrl))
           else page.fragment == ""))
    && (failedUrl == "" ==>
          (ReadParam(href, "failedUrl") == Some("") <==>
           (Keyed(Split(earlier + page.fragment, '&'), "failedUrl") ==>
              ReadValue(Split(earlier + page.fragment, '&'), "failedUrl") == Some(""))))
    && ('?' !in page.uri ==>
          && !Keyed(Split(earlier, '&'), "failedUrl")
          && (Lookup(Split(Parameters(href), '&'), "errorCode") == Str(Escape(errorCode)) <==>
              page.fragment == "" || failedUrl != ""))
  }

  /**
   On every error page: a query of its own is replaced, and the values are read back under the exact
   conditions above.
   */
  lemma ErrorPageReadsFailedUrl(page: string, errorCode: string, failedUrl: string)
    ensures ReadsBack(Parse(page), errorCode, failedUrl)
    ensures AllUnreserved(errorCode) ==> Escape(errorCode) == errorCode
  {
    hide Parse, ReadsBack, Escape;
    FragmentStart(page);
    PartsReadBack(Parse(page), errorCode, failedUrl);
    if AllUnreserved(errorCode) {
      UnreservedKept(errorCode);
    }
  }

  lemma FragmentStart(page: string)
    ensures Parse(page).fragment != "" ==> Parse(page).fragment[0] == '#'
  {
    hide Find, HostPort, PortOf, PathOf, QueryOf, SchemeOf, Before, Tail;
  }

  // ---- splitting and looking up a text with a last parameter ----

  lemma {:induction false} SplitAppends(a: string, b: string, separator: char)
    ensures Split(a + ([separator] + b), separator) == Split(a, separator) + Split(b, separator)
    decreases |a|
  {
    hide Cut, Split;
    var k := Cut(a, {separator});
    if k == |a| {
      FreeUntilCut(a, separator);
      SplitBehind(a, b, separator);
      SplitFree(a, separator);
    } else {
      var head, tail := a[..k], a[k + 1..];
      FreeUntilCut(a, separator);
      assert a == head + ([separator] + tail);
      SplitBehind(head, tail, separator);
      SplitAppends(tail, b, separator);
      SplitBehind(head, tail + ([separator] + b), separator);
      Regroup([separator], tail, [separator] + b);
      Regroup(head, [separator] + tail, [separator] + b);
      Regroup([head], Split(tail, separator), Split(b, separator));
    }
  }

  lemma FreeUntilCut(a: string, separator: char)
    ensures var k := Cut(a, {separator});
            k <= |a| && Free(a[..k], {separator}) && (k < |a| ==> a[k] == separator)
            && (k == |a| ==> Free(a, {separator}))
  {
    hide Cut;
  }

  lemma SplitFree(a: string, separator: char)
    requires Free(a, {separator})
    ensures Split(a, separator) == [a]
  {
    hide Cut;
    FreeUntilCut(a, separator);
  }

  lemma SplitBehind(a: string, rest: string, separator: char)
    requires Free(a, {separator})
    ensures Split(a + ([separator] + rest), separator) == [a] + Split(rest, separator)
  {
    hide Cut, Before, From;
    CutText(a, rest, separator);
    UnfoldSplit(a + ([separator] + rest), |a|, separator);
  }

  lemma CutText(a: string, rest: string, separator: char)
    requires Free(a, {separator})
    ensures var text := a + ([separator] + rest);
            Cut(text, {separator}) == |a| && text[..|a|] == a && text[|a| + 1..] == rest
  {
    hide Cut, Before, From;
    var behind := [separator] + rest;
    CutConcat(a, behind, {separator});
    CutAtOnce(behind, separator);
    assert behind[1..] == rest;
  }

  lemma CutAtOnce(text: string, separator: char)
    requires text != "" && text[0] == separator
    ensures Cut(text, {separator}) == 0
  {
  }

  lemma UnfoldSplit(text: string, k: nat, separator: char)
    requires k == Cut(text, {separator}) && k < |text|
    ensures Split(text, separator) == [text[..k]] + Split(text[k + 1..], separator)
  {
    hide Cut;
  }

  lemma FirstOfSplit(a: string, rest: string, separator: char)
    requires Free(a, {separator})
    ensures Split(a + rest, separator) != [] && Split(a + rest, separator)[0] == a + Before(rest, {separator})
  {
    hide Cut;
    CutConcat(a, rest, {separator});
    SplitStarts(a + rest, separator);
  }

  lemma SplitStarts(text: string, separator: char)
    ensures Split(text, separator) != [] && Split(text, separator)[0] == Before(text, {separator})
  {
    hide Cut;
    assert text[..|text|] == text;
  }

  lemma LookupFirst(params: seq<string>, target: string)
    requires params != []
    ensures Split(params[0], '=') != []
    ensures var parts := Split(params[0], '=');
            && Keyed(params, target) == (parts[0] == target || Keyed(params[1..], target))
            && Lookup(params, target) ==
               if parts[0] == target then if |parts| > 1 then Str(parts[1]) else Undefined
               else Lookup(params[1..], target)
  {
    hide Split;
    SplitStarts(params[0], '=');
  }

  lemma {:induction false} LookupAppends(first: seq<string>, rest: seq<string>, target: string)
    ensures Lookup(first + rest, target) == if Keyed(first, target) then Lookup(first, target) else Lookup(rest, target)
    ensures Keyed(first + rest, target) == (Keyed(first, target) || Keyed(rest, target))
    ensures !Keyed(first, target) ==> Lookup(first, target) == Str("")
  {
    hide Split, Lookup, Keyed;
    if first == [] {
      assert first + rest == rest;
      LookupNothing(target);
    } else {
      assert (first + rest)[0] == first[0] && (first + rest)[1..] == first[1..] + rest;
      LookupAppends(first[1..], rest, target);
      LookupFirst(first, target);
      LookupFirst(first + rest, target);
    }
  }

  lemma LookupNothing(target: string)
    ensures Lookup([], target) == Str("") && !Keyed([], target)
  {
  }

  lemma NotKeyed(params: seq<string>, target: string)
    requires !Keyed(params, target)
    ensures Lookup(params, target) == Str("")
  {
    hide Lookup, Keyed;
    LookupAppends(params, [], target);
    assert params + [] == params;
  }

  /** A parameter, with what stands behind it up to the next separators. */
  lemma LookupParameter(key: string, value: string, fragment: string)
    requires Free(key, {'&', '='}) && Free(value, {'&', '='})
    ensures var params := Split(key + ("=" + value) + fragment, '&');
            Keyed(params, key) && Lookup(params, key) == Str(value + Before(Before(fragment, {'&'}), {'='}))
  {
    hide Split, Lookup, Keyed, Cut, Before;
    var item := key + ("=" + value);
    FreeItem(key, value);
    FirstOfSplit(item, fragment, '&');
    var rest := Before(fragment, {'&'});
    Regroup("=", value, rest);
    Regroup(key, "=" + value, rest);
    SplitBehind(key, value + rest, '=');
    FirstOfSplit(value, rest, '=');
    LookupFirst(Split(item + fragment, '&'), key);
  }

  lemma FreeItem(key: string, value: string)
    requires Free(key, {'&', '='}) && Free(value, {'&', '='})
    ensures Free(key + ("=" + value), {'&'}) && Free(key, {'='}) && Free(value, {'='})
  {
  }

  /** The value of the last parameter of a text, unless an earlier one has its key. */
  lemma LookupLast(main: string, key: string, value: string, fragment: string)
    requires Free(key, {'&', '='}) && Free(value, {'&', '='})
    ensures Lookup(Split(main + ("&" + (key + ("=" + value) + fragment)), '&'), key) ==
            if Keyed(Split(main, '&'), key) then Lookup(Split(main, '&'), key)
            else Str(value + Before(Before(fragment, {'&'}), {'='}))
  {
    hide Split, Lookup, Keyed, Before;
    SplitAppends(main, key + ("=" + value) + fragment, '&');
    LookupAppends(Split(main, '&'), Split(key + ("=" + value) + fragment, '&'), key);
    LookupParameter(key, value, fragment);
  }

  lemma ParametersOf(base: string, text: string)
    ensures Parameters(base + ("?" + text)) == if '?' in base then From(base, {'?'})[1..] + ("?" + text) else text
  {
    hide Cut, Before;
    var href := base + ("?" + text);
    assert href[|base|] == '?';
    if '?' in base {
      FromBefore(base, "?" + text, '?');
    } else {
      CutAtSeam(href, base, "?" + text, {'?'});
      assert ("?" + text)[1..] == text;
    }
  }

  lemma FromBefore(base: string, text: string, separator: char)
    requires separator in base
    ensures From(base, {separator}) != "" && From(base + text, {separator}) != ""
    ensures From(base + text, {separator})[1..] == From(base, {separator})[1..] + text
  {
    hide Cut;
    var k := Cut(base, {separator});
    FreeUntilCut(base, separator);
    var head, tail := base[..k], base[k..];
    assert base == head + tail;
    assert k < |base|;
    Regroup(head, tail, text);
    CutConcat(head, tail + text, {separator});
    CutAtOnce(tail + text, separator);
    assert From(base + text, {separator}) == tail + text;
    assert (tail + text)[1..] == tail[1..] + text;
  }

  /** A fragment behind a value spoils it; none leaves it. */
  lemma SpoiltValue(text: string, fragment: string)
    requires fragment == "" || fragment[0] == '#'
    ensures var x := Before(Before(fragment, {'&'}), {'='});
            && (DecodeURIComponent(Escape(text) + x) == Some(CStr(text)) <==> fragment == "")
            && (Escape(text) + x == Escape(text) <==> fragment == "")
  {
    hide DecodeURIComponent, Escape, CStr;
    var x := Before(Before(fragment, {'&'}), {'='});
    HashStays(fragment);
    DecodeWith(text, x);
  }

  lemma HashStays(fragment: string)
    requires fragment == "" || fragment[0] == '#'
    ensures Before(Before(fragment, {'&'}), {'='}) == "" <==> fragment == ""
  {
  }

  lemma DecodeWith(text: string, x: string)
    ensures DecodeURIComponent(Escape(text) + x) == Some(CStr(text)) <==> DecodeURIComponent(x) == Some("")
    ensures DecodeURIComponent(x) == Some("") <==> x == ""
    ensures Escape(text) + x == Escape(text) <==> x == ""
  {
    hide CStr, EachChar;
    DecodeBehind(CStr(text), x);
    var decoded := DecodeURIComponent(x);
    if decoded.Some? {
      assert CStr(text) + decoded.value == CStr(text) <==> decoded.value == "";
    }
  }

  // ---- the error page ----

  /** The texts that are written and read. */
  lemma ErrorPageTexts(base: string, fragment: string, errorCode: string, failedUrl: string)
    ensures var params := Parameters(base + QueryText(ErrorQuery(errorCode, failedUrl)) + fragment);
            params == if failedUrl == "" then Earlier(base, errorCode) + fragment
            else Earlier(base, errorCode) + ("&" + (FAILED_URL + ("=" + Escape(failedUrl)) + fragment))
  {
    hide QueryText, Escape, Item, Parameters, Cut;
    var item, last := Item((ERROR_CODE, errorCode)), FAILED_URL + ("=" + Escape(failedUrl));
    var front := if '?' in base then From(base, {'?'})[1..] + "?" else "";
    ErrorQueryText(errorCode, failedUrl);
    var text := if failedUrl == "" then item + fragment else item + ("&" + (last + fragment));
    QueryBefore(item, last, fragment);
    Regroup(base, QueryText(ErrorQuery(errorCode, failedUrl)), fragment);
    ParametersOf(base, text);
    if '?' in base {
      Regroup(From(base, {'?'})[1..], "?", text);
    } else {
      assert "" + text == text && "" + item == item;
    }
    Regroup(front, item, fragment);
    Regroup(front, item, "&" + (last + fragment));
  }

  lemma QueryBefore(item: string, last: string, fragment: string)
    ensures ("?" + item) + fragment == "?" + (item + fragment)
    ensures ("?" + (item + ("&" + last))) + fragment == "?" + (item + ("&" + (last + fragment)))
  {
    Regroup("?", item, fragment);
    Regroup("&", last, fragment);
    Regroup(item, "&" + last, fragment);
    Regroup("?", item + ("&" + last), fragment);
  }

  lemma ErrorQueryText(errorCode: string, failedUrl: string)
    ensures var item := Item((ERROR_CODE, errorCode));
            QueryText(ErrorQuery(errorCode, failedUrl)) ==
            if failedUrl == "" then "?" + item else "?" + (item + ("&" + (FAILED_URL + ("=" + Escape(failedUrl)))))
  {
    hide Escape, QueryText, Item;
    OneItem((ERROR_CODE, errorCode));
    TwoItems((ERROR_CODE, errorCode), (FAILED_URL, failedUrl));
    PlainKeys();
    PlainItem(FAILED_URL, failedUrl);
    assert [(ERROR_CODE, errorCode)] + [] == [(ERROR_CODE, errorCode)];
  }

  lemma PlainKeys()
    ensures AllUnreserved(ERROR_CODE) && AllUnreserved(FAILED_URL) && ERROR_CODE != FAILED_URL
    ensures Free(ERROR_CODE, {'&', '='}) && Free(FAILED_URL, {'&', '='})
  {
    assert ERROR_CODE[0] != FAILED_URL[0];
  }

  lemma PlainItem(key: string, value: string)
    requires AllUnreserved(key)
    ensures Item((key, value)) == key + ("=" + Escape(value))
  {
    hide Escape;
    UnreservedKept(key);
    Regroup(key, "=", Escape(value));
  }

  lemma OneItem(first: (string, string))
    ensures Items([first]) == [Item(first)] && QueryText([first]) == "?" + Item(first)
  {
    hide Item;
    NoItems();
    assert [first][1..] == [];
    JoinOne(Item(first), '&');
  }

  lemma TwoItems(first: (string, string), second: (string, string))
    ensures QueryText([first] + [second]) == "?" + (Item(first) + ("&" + Item(second)))
  {
    hide Item, Items;
    ItemsConcat([first], second);
    OneItem(first);
    JoinOne(Item(first), '&');
    JoinGrows([Item(first)], Item(second), '&');
    Regroup(Item(first), "&", Item(second));
  }

  lemma EscapedValue(value: string)
    ensures Free(Escape(value), {'&', '='})
  {
    hide Escape;
    EscapeIsFree(value);
  }

  /** Without a question mark in front, the only earlier parameter is the error code. */
  lemma OnlyErrorCodeIsEarlier(base: string, errorCode: string)
    requires '?' !in base
    ensures var params := Split(Earlier(base, errorCode), '&');
            && Earlier(base, errorCode) == ERROR_CODE + ("=" + Escape(errorCode))
            && !Keyed(params, FAILED_URL) && Keyed(params, ERROR_CODE)
            && Lookup(params, ERROR_CODE) == Str(Escape(errorCode))
  {
    hide Split, Escape, Item, Lookup, Keyed;
    var item, value := Item((ERROR_CODE, errorCode)), Escape(errorCode);
    PlainKeys();
    PlainItem(ERROR_CODE, errorCode);
    EscapedValue(errorCode);
    assert "" + item == item;
    OneParameter(ERROR_CODE, value, FAILED_URL);
  }

  lemma OneParameter(key: string, value: string, other: string)
    requires Free(key, {'&', '='}) && Free(value, {'&', '='}) && key != other
    ensures var params := Split(key + ("=" + value), '&');
            !Keyed(params, other) && Keyed(params, key) && Lookup(params, key) == Str(value)
  {
    hide Split, Lookup, Keyed, Cut;
    var item := key + ("=" + value);
    FreeItem(key, value);
    SplitFree(item, '&');
    SplitBehind(key, value, '=');
    SplitFree(value, '=');
    LookupFirst([item], key);
    LookupFirst([item], other);
    assert [item][1..] == [];
    LookupNothing(other);
  }

  lemma PartsReadBack(page: UriParts, errorCode: string, failedUrl: string)
    requires page.fragment == "" || page.fragment[0] == '#'
    ensures ReadsBack(page, errorCode, failedUrl)
  {
    hide QueryText, Escape, CStr, Parameters, DecodeURIComponent, Lookup, Split, Keyed, Earlier, ErrorQuery;
    var earlier := Earlier(page.uri, errorCode);
    ErrorPageTexts(page.uri, page.fragment, errorCode, failedUrl);
    PlainKeys();
    EscapedValue(failedUrl);
    SpoiltValue(failedUrl, page.fragment);
    DecodeNothing();
    if failedUrl != "" {
      LookupLast(earlier, FAILED_URL, Escape(failedUrl), page.fragment);
    } else if !Keyed(Split(earlier + page.fragment, '&'), FAILED_URL) {
      NotKeyed(Split(earlier + page.fragment, '&'), FAILED_URL);
    }
    if '?' !in page.uri {
      ErrorCodeReadsBack(page.uri, page.fragment, errorCode, failedUrl);
    }
  }

  lemma ErrorCodeReadsBack(base: string, fragment: string, errorCode: string, failedUrl: string)
    requires '?' !in base && (fragment == "" || fragment[0] == '#')
    ensures var params := Parameters(base + QueryText(ErrorQuery(errorCode, failedUrl)) + fragment);
            && !Keyed(Split(Earlier(base, errorCode), '&'), FAILED_URL)
            && (Lookup(Split(params, '&'), ERROR_CODE) == Str(Escape(errorCode)) <==> fragment == "" || failedUrl != "")
  {
    hide QueryText, Escape, CStr, Parameters, Lookup, Split, Keyed, Earlier, ErrorQuery;
    var earlier, last := Earlier(base, errorCode), FAILED_URL + ("=" + Escape(failedUrl)) + fragment;
    ErrorPageTexts(base, fragment, errorCode, failedUrl);
    OnlyErrorCodeIsEarlier(base, errorCode);
    PlainKeys();
    EscapedValue(errorCode);
    SpoiltValue(errorCode, fragment);
    if failedUrl != "" {
      SplitAppends(earlier, last, '&');
      LookupAppends(Split(earlier, '&'), Split(last, '&'), ERROR_CODE);
    } else {
      LookupParameter(ERROR_CODE, Escape(errorCode), fragment);
    }
  }

  lemma DecodeNothing()
    ensures DecodeURIComponent("") == Some("") && CStr("") == ""
  {
  }
}
