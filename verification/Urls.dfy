/** wam::Url (util/url.cc): splitting a URI into its parts and printing it again. */
module Urls {
  import opened Options
  import opened Texts
  import opened StringEdits
  import opened PercentEncoding

  /** The largest std::string, and the modulus of its unsigned positions. */
  const MAX_SIZE := 0x7FFF_FFFF_FFFF_FFFF
  const POSITIONS := 0x1_0000_0000_0000_0000

  const SLASHES := "//"
  const AUTHORITY_END := {'/', '?', '#'}
  const HOST_END := {':', '/', '?', '#'}
  const PATH_END := {'?', '#'}

  datatype UriParts = UriParts(uri: string, scheme: string, host: string, port: string,
                               path: string, query: string, fragment: string)
  {
    function ToString(): string {
      uri + query + fragment
    }
  }

  // ---- what the constructor stores, by cutting instead of by positions ----

  /** The text behind "//", or None. */
  function BehindSlashes(u: string): Option<string> {
    match Find(u, SLASHES, 0)
    case None => None
    case Some(k) => Some(u[k + 2..])
  }

  /** The text from the end of the authority on; empty for a URI without "//". */
  function Tail(u: string): string {
    match BehindSlashes(u)
    case None => ""
    case Some(rest) => From(rest, AUTHORITY_END)
  }

  /** User info is looked for, and skipped, in everything behind the slashes. */
  function HostPort(rest: string): string {
    if '@' in rest then From(rest, {'@'})[1..] else rest
  }

  /** The port runs to the end of the authority, or to the end of the text if it starts behind that end. */
  function PortOf(behindHost: string, tail: string): string {
    if behindHost == "" || behindHost[0] != ':' then ""
    else if |tail| < |behindHost| then behindHost[1..|behindHost| - |tail|]
    else behindHost[1..]
  }

  function PathOf(tail: string): string {
    if tail != "" && tail[0] == '/' then Before(tail, PATH_END) else ""
  }

  function QueryOf(tail: string): string {
    Before(From(tail, {'?'}), {'#'})
  }

  function FragmentOf(tail: string): string {
    From(tail, {'#'})
  }

  function SchemeOf(u: string): string {
    if ':' in u then Before(u, {':'}) else ""
  }

  function Parse(u: string): UriParts {
    match BehindSlashes(u)
    case None =>
      UriParts(u, SchemeOf(u), "", "", if ':' in u then From(u, {':'})[1..] else "", "", "")
    case Some(rest) =>
      var tail := Tail(u);
      UriParts(u[..|u| - |From(tail, PATH_END)|], SchemeOf(u),
               Before(HostPort(rest), HOST_END), PortOf(From(HostPort(rest), HOST_END), tail),
               PathOf(tail), QueryOf(tail), FragmentOf(tail))
  }

  // ---- the positions the code works with ----

  /** s.substr between two positions; a negative length wraps around to a huge one. */
  function GetSubString(s: string, start: nat, end: Option<nat>): string
    requires start <= |s|
  {
    Substr(s, start, if end.None? then |s| - start else (end.value - start) % POSITIONS)
  }

  lemma SubStringIsSlice(s: string, start: nat, end: Option<nat>)
    requires start <= |s| <= MAX_SIZE
    requires end.Some? ==> end.value <= |s|
    ensures GetSubString(s, start, end) ==
            if end.None? || end.value < start then s[start..] else s[start..end.value]
  {
    if end.Some? && end.value < start {
      assert (end.value - start) % POSITIONS == end.value - start + POSITIONS;
    }
  }

  lemma SchemePart(u: string)
    ensures match FindFirstOf(u, {':'}, Some(0))
            case None => ':' !in u && SchemeOf(u) == ""
            case Some(d) => ':' in u && SchemeOf(u) == u[..d] && From(u, {':'})[1..] == u[d + 1..]
  {
    hide Cut, FindFirstOf;
    assert u[0..] == u;
    CutAt(u, {':'}, 0, u);
  }

  /** Where the host starts, given where the authority starts. */
  function HostStart(u: string, start: nat): nat {
    match FindFirstOf(u, {'@'}, Some(start)) case None => start case Some(p) => p + 1
  }

  lemma HostPortIsSuffix(u: string, start: nat)
    requires start <= |u|
    ensures start <= HostStart(u, start) <= |u| && HostPort(u[start..]) == u[HostStart(u, start)..]
  {
    hide Cut, FindFirstOf, Before, From;
    CutAt(u, {'@'}, start, u[start..]);
  }

  lemma HostPart(u: string, hostStart: nat, hostEnd: Option<nat>)
    requires hostStart <= |u| <= MAX_SIZE && hostEnd == FindFirstOf(u, HOST_END, Some(hostStart))
    ensures GetSubString(u, hostStart, hostEnd) == Before(u[hostStart..], HOST_END)
    ensures From(u[hostStart..], HOST_END) == if hostEnd.None? then "" else u[hostEnd.value..]
  {
    hide Cut, FindFirstOf, GetSubString, Before, From;
    CutAt(u, HOST_END, hostStart, u[hostStart..]);
    SubStringIsSlice(u, hostStart, hostEnd);
  }

  lemma PortPart(u: string, hostEnd: nat, end: Option<nat>)
    requires |u| <= MAX_SIZE && hostEnd < |u| && u[hostEnd] == ':'
    requires end.Some? ==> end.value < |u|
    ensures GetSubString(u, hostEnd + 1, end) == PortOf(u[hostEnd..], if end.None? then "" else u[end.value..])
  {
    hide GetSubString;
    SubStringIsSlice(u, hostEnd + 1, end);
  }

  lemma FragmentPart(u: string, end: nat, start: Option<nat>)
    requires end < |u| <= MAX_SIZE && start == FindFirstOf(u, {'#'}, Some(end))
    ensures FragmentOf(u[end..]) == if start.None? then "" else GetSubString(u, start.value, Some(|u|))
  {
    hide Cut, FindFirstOf, GetSubString, Before, From;
    CutAt(u, {'#'}, end, u[end..]);
    if start.Some? {
      SubStringIsSlice(u, start.value, Some(|u|));
    }
  }

  lemma QueryPart(u: string, end: nat, start: Option<nat>)
    requires end < |u| <= MAX_SIZE && start == FindFirstOf(u, {'?'}, Some(end))
    ensures QueryOf(u[end..]) ==
            if start.None? then "" else GetSubString(u, start.value, FindFirstOf(u, {'#'}, start))
  {
    hide Cut, FindFirstOf, GetSubString, Before, From;
    CutAt(u, {'?'}, end, u[end..]);
    if start.Some? {
      CutAt(u, {'#'}, start.value, u[start.value..]);
      SubStringIsSlice(u, start.value, FindFirstOf(u, {'#'}, start));
    } else {
      EmptyTail();
    }
  }

  lemma PathPart(u: string, end: nat)
    requires end < |u| <= MAX_SIZE
    ensures var pathEnd, tail := FindFirstOf(u, PATH_END, Some(end)), u[end..];
            && GetSubString(u, end, pathEnd) == Before(tail, PATH_END)
  {
    hide Cut, FindFirstOf, GetSubString;
    var pathEnd := FindFirstOf(u, PATH_END, Some(end));
    CutAt(u, PATH_END, end, u[end..]);
    SubStringIsSlice(u, end, pathEnd);
  }

  lemma UriPart(u: string, end: Option<nat>, tail: string)
    requires |u| <= MAX_SIZE && (end.Some? ==> end.value < |u|)
    requires tail == if end.None? then "" else u[end.value..]
    ensures |From(tail, PATH_END)| <= |u|
    ensures GetSubString(u, 0, FindFirstOf(u, PATH_END, end)) == u[..|u| - |From(tail, PATH_END)|]
    ensures end.None? ==> GetSubString(u, 0, FindFirstOf(u, PATH_END, end)) == u
  {
    hide Cut, GetSubString, FindFirstOf, From, Before;
    var pathEnd := FindFirstOf(u, PATH_END, end);
    SubStringIsSlice(u, 0, pathEnd);
    if end.Some? {
      CutAt(u, PATH_END, end.value, tail);
    } else {
      EmptyTail();
    }
  }

  lemma EmptyTail()
    ensures From("", PATH_END) == "" && Before("", {'#'}) == ""
    ensures PathOf("") == "" && QueryOf("") == "" && FragmentOf("") == ""
  {
  }

  // ---- the query writer ----

  function Item(pair: (string, string)): string {
    Escape(pair.0) + "=" + Escape(pair.1)
  }

  function Items(pairs: seq<(string, string)>): seq<string> {
    if pairs == [] then [] else [Item(pairs[0])] + Items(pairs[1..])
  }

  /** "?key=value&key=value...", or nothing at all. */
  function QueryText(pairs: seq<(string, string)>): string {
    if pairs == [] then "" else "?" + Join(Items(pairs), '&')
  }

  lemma {:induction false} ItemsConcat(pairs: seq<(string, string)>, last: (string, string))
    ensures Items(pairs + [last]) == Items(pairs) + [Item(last)]
  {
    hide Item;
    if pairs != [] {
      ItemsConcat(pairs[1..], last);
      assert (pairs + [last])[1..] == pairs[1..] + [last];
    }
  }

  lemma QueryTextGrows(pairs: seq<(string, string)>, last: (string, string))
    ensures QueryText(pairs + [last]) ==
            QueryText(pairs) + (if QueryText(pairs) == "" then "?" else "&") + (Escape(last.0) + "=" + Escape(last.1))
  {
    hide QueryText, Escape;
    if pairs == [] {
      OnePair(last);
      assert pairs + [last] == [last];
    } else {
      OnePairMore(pairs, last);
    }
  }

  lemma OnePair(pair: (string, string))
    ensures QueryText([]) == "" && QueryText([pair]) == "?" + Item(pair)
  {
    hide Item, Items, Join;
    NoItems();
    ItemsConcat([], pair);
    JoinOne(Item(pair), '&');
    assert [] + [pair] == [pair] && [] + [Item(pair)] == [Item(pair)];
  }

  lemma OnePairMore(pairs: seq<(string, string)>, last: (string, string))
    requires pairs != []
    ensures QueryText(pairs) != "" && QueryText(pairs + [last]) == QueryText(pairs) + "&" + Item(last)
  {
    hide Join, Items, Item;
    ItemsConcat(pairs, last);
    SomeItems(pairs);
    JoinGrows(Items(pairs), Item(last), '&');
    var joined := Join(Items(pairs), '&');
    Regroup("?", joined, "&");
    Regroup("?", joined + "&", Item(last));
  }

  lemma NoItems()
    ensures Items([]) == []
  {
  }

  lemma SomeItems(pairs: seq<(string, string)>)
    ensures |Items(pairs)| == |pairs|
  {
  }

  /** The texts behind the slashes and behind the authority, by position. */
  lemma AuthorityTexts(u: string, slashes: Option<nat>, authorityEnd: Option<nat>)
    requires slashes == Find(u, SLASHES, 0)
    requires authorityEnd == FindFirstOf(u, AUTHORITY_END, if slashes.Some? then Some(slashes.value + 2) else None)
    ensures slashes.None? ==> BehindSlashes(u).None? && Tail(u) == "" && authorityEnd.None?
    ensures slashes.Some? ==> slashes.value + 2 <= |u| && BehindSlashes(u) == Some(u[slashes.value + 2..])
    ensures Tail(u) == if authorityEnd.None? then "" else u[authorityEnd.value..]
  {
    hide Find, Cut, FindFirstOf, Before, From;
    if slashes.Some? {
      CutAt(u, AUTHORITY_END, slashes.value + 2, u[slashes.value + 2..]);
    }
  }

  lemma ParsedParts(u: string, slashes: Option<nat>, tail: string)
    requires match slashes case None => BehindSlashes(u).None? && tail == ""
                           case Some(k) => k + 2 <= |u| && BehindSlashes(u) == Some(u[k + 2..])
    requires tail == Tail(u) && |From(tail, PATH_END)| <= |u|
    ensures slashes.None? ==>
              Parse(u) == UriParts(u, SchemeOf(u), "", "", if ':' in u then From(u, {':'})[1..] else "", "", "")
    ensures slashes.Some? ==>
              var hostPort := HostPort(u[slashes.value + 2..]);
              Parse(u) == UriParts(u[..|u| - |From(tail, PATH_END)|], SchemeOf(u),
                                   Before(hostPort, HOST_END), PortOf(From(hostPort, HOST_END), tail),
                                   PathOf(tail), QueryOf(tail), FragmentOf(tail))
  {
    hide Find, Cut, Before, From, HostPort, PortOf, PathOf, QueryOf, FragmentOf, SchemeOf, Tail, BehindSlashes;
  }

  class Url {
    var uri: string
    var scheme: string
    var host: string
    var port: string
    var path: string
    var query: string
    var fragment: string

    ghost function View(): UriParts
      reads this
    {
      UriParts(uri, scheme, host, port, path, query, fragment)
    }

    constructor (u: string)
      requires |u| <= MAX_SIZE
      ensures View() == Parse(u)
    {
      uri, scheme, host, port, path, query, fragment := "", "", "", "", "", "", "";
      new;
      ParseUri(u);
    }

    /** The old query is dropped; every key and value is escaped. */
    method SetQuery(newQuery: seq<(string, string)>)
      modifies this`query
      ensures query == QueryText(newQuery)
    {
      query := "";
      for i := 0 to |newQuery|
        invariant query == QueryText(newQuery[..i])
      {
        var key, value := Escape(newQuery[i].0), Escape(newQuery[i].1);
        QueryTextGrows(newQuery[..i], newQuery[i]);
        assert newQuery[..i + 1] == newQuery[..i] + [newQuery[i]];
        query := query + (if query == "" then "?" else "&");
        query := query + (key + "=" + value);
      }
      assert newQuery[..|newQuery|] == newQuery;
    }

    /** No substr below starts out of range, whatever the text: GetSubString asks for it. */
    method ParseUri(u: string)
      requires |u| <= MAX_SIZE
      requires View() == UriParts("", "", "", "", "", "", "")
      modifies this
      ensures View() == Parse(u)
    {
      hide Find, FindFirstOf, GetSubString, PortOf, QueryOf, FragmentOf, PathOf, SchemeOf, HostPort, Before, From;
      hide Tail, BehindSlashes, Parse, OccursAt;
      var schemeDelimiter := FindFirstOf(u, {':'}, Some(0));
      SchemePart(u);
      if schemeDelimiter.Some? {
        scheme := Substr(u, 0, schemeDelimiter.value);
      }
      var slashes := Find(u, SLASHES, 0);
      var authorityStart: Option<nat> := if slashes.Some? then Some(slashes.value + 2) else None;
      var authorityEnd := FindFirstOf(u, AUTHORITY_END, authorityStart);
      AuthorityTexts(u, slashes, authorityEnd);
      UriPart(u, authorityEnd, Tail(u));
      ParsedParts(u, slashes, Tail(u));
      if authorityStart.Some? {
        ParseAuthority(u, authorityStart.value, authorityEnd);
      }
      var pathEnd := FindFirstOf(u, PATH_END, authorityEnd);
      uri := GetSubString(u, 0, pathEnd);
      if authorityStart.None? {
        if schemeDelimiter.Some? {
          path := Substr(u, schemeDelimiter.value + 1, |u| - schemeDelimiter.value);
        }
      } else if authorityEnd.Some? {
        ParseTail(u, authorityEnd.value, pathEnd);
      } else {
        EmptyTail();
      }
    }

    /** The first branch of ParseUri: host and port. */
    method ParseAuthority(u: string, authorityStart: nat, authorityEnd: Option<nat>)
      requires authorityStart <= |u| <= MAX_SIZE
      requires authorityEnd.Some? ==> authorityEnd.value < |u|
      requires host == "" && port == ""
      modifies this`host, this`port
      ensures var hostPort := HostPort(u[authorityStart..]);
              && host == Before(hostPort, HOST_END)
              && port == PortOf(From(hostPort, HOST_END), if authorityEnd.None? then "" else u[authorityEnd.value..])
    {
      hide Cut, FindFirstOf, GetSubString, HostPort, Before, From;
      HostPortIsSuffix(u, authorityStart);
      var hostStart := HostStart(u, authorityStart);
      var hostEnd := FindFirstOf(u, HOST_END, Some(hostStart));
      HostPart(u, hostStart, hostEnd);
      host := GetSubString(u, hostStart, hostEnd);
      if hostEnd.Some? && u[hostEnd.value] == ':' {
        PortPart(u, hostEnd.value, authorityEnd);
        port := GetSubString(u, hostEnd.value + 1, authorityEnd);
      }
    }

    /** The last branch of ParseUri: path, query and fragment. */
    method ParseTail(u: string, authorityEnd: nat, pathEnd: Option<nat>)
      requires authorityEnd < |u| <= MAX_SIZE
      requires pathEnd == FindFirstOf(u, PATH_END, Some(authorityEnd))
      requires path == "" && query == "" && fragment == ""
      modifies this`path, this`query, this`fragment
      ensures path == PathOf(u[authorityEnd..])
      ensures query == QueryOf(u[authorityEnd..]) && fragment == FragmentOf(u[authorityEnd..])
    {
      hide Cut, FindFirstOf, GetSubString, QueryOf, FragmentOf, Before;
      PathPart(u, authorityEnd);
      if u[authorityEnd] == '/' {
        path := GetSubString(u, authorityEnd, pathEnd);
      }
      var queryStart := FindFirstOf(u, {'?'}, Some(authorityEnd));
      QueryPart(u, authorityEnd, queryStart);
      if queryStart.Some? {
        var queryEnd := FindFirstOf(u, {'#'}, queryStart);
        query := GetSubString(u, queryStart.value, queryEnd);
      }
      var fragmentStart := FindFirstOf(u, {'#'}, Some(authorityEnd));
      FragmentPart(u, authorityEnd, fragmentStart);
      if fragmentStart.Some? {
        fragment := GetSubString(u, fragmentStart.value, Some(|u|));
      }
    }
  }

  // ---- printing gives back what was parsed ----

  /** Does a '#' stand before the first '?', with a '?' still to come? */
  predicate FragmentHidesQuery(tail: string) {
    && '?' in tail
    && '#' in Before(tail, {'?'})
  }

  lemma TailIsSuffix(u: string)
    ensures |Tail(u)| <= |u| && u == u[..|u| - |Tail(u)|] + Tail(u)
  {
    match Find(u, SLASHES, 0)
    case None =>
    case Some(k) =>
      assert u[|u| - |Tail(u)|..] == Tail(u);
  }

  /**
   A parsed URI prints as the text it came from, unless its fragment contains a '?' while
   there is no query: then the part from that '?' is printed twice.
   */
  lemma PrintsWhatWasParsed(u: string)
    ensures Parse(u).ToString() == u <==> !FragmentHidesQuery(Tail(u))
  {
    hide Find, Cut, QueryOf, FragmentOf, PathOf, PortOf, HostPort, SchemeOf, Tail, FragmentHidesQuery;
    var tail := Tail(u);
    if BehindSlashes(u).Some? {
      TailIsSuffix(u);
      TailPrints(tail);
      PrintedBehind(u, u[..|u| - |tail|], tail, QueryOf(tail), FragmentOf(tail));
    } else {
      NoTail(u);
    }
  }

  predicate NowhereTwoSlashes(u: string) {
    forall i :: 1 <= i < |u| && u[i] == '/' ==> u[i - 1] != '/'
  }

  /**
   The scheme is what precedes the first colon, if there is one. A text without two slashes has only
   scheme and path, with that colon between them, and nothing at all if it has no colon.
   */
  lemma SchemeAndPath(u: string)
    ensures var p := Parse(u);
            && Free(p.scheme, {':'})
            && (':' in u ==> p.scheme + ":" <= u) && (':' !in u ==> p.scheme == "")
            && (NowhereTwoSlashes(u) ==>
                  && p.uri == u && p.host == p.port == p.query == p.fragment == ""
                  && if ':' in u then p.scheme + ":" + p.path == u else p.path == "")
  {
    hide PortOf, HostPort, PathOf, QueryOf, FragmentOf, Tail;
    SchemePart(u);
    FirstColon(u);
    if ':' in u {
      assert u == Before(u, {':'}) + ":" + From(u, {':'})[1..];
    }
    if NowhereTwoSlashes(u) {
      NoSlashes(u);
    }
  }

  lemma FirstColon(u: string)
    ensures u == Before(u, {':'}) + From(u, {':'}) && Free(Before(u, {':'}), {':'})
    ensures ':' in u <==> From(u, {':'}) != ""
    ensures ':' in u ==> From(u, {':'})[0] == ':'
  {
  }

  lemma NoSlashes(u: string)
    requires NowhereTwoSlashes(u)
    ensures BehindSlashes(u).None?
  {
    if Find(u, SLASHES, 0).Some? {
      var p := Find(u, SLASHES, 0).value;
      assert u[p..p + 2] == "//" && u[p] == u[p..p + 2][0] && u[p + 1] == u[p..p + 2][1];
    }
  }

  /** A URI without query whose fragment has a question mark does not print as it was written. */
  lemma FragmentIsPrintedTwice()
    ensures Parse("x://h#a?b").ToString() != "x://h#a?b"
  {
    hide Parse, Tail;
    var u, tail := "x://h#a?b", "#a?b";
    assert u == "x" + ("://" + ("h" + tail));
    TailOf(u, "x", "h", tail);
    assert tail == "#a" + "?b";
    CutAtSeam(tail, "#a", "?b", {'?'});
    assert '#' == "#a"[0] && '?' == tail[2];
    PrintsWhatWasParsed(u);
  }

  lemma TailOf(u: string, scheme: string, authority: string, tail: string)
    requires u == scheme + ("://" + (authority + tail)) && Free(scheme, {':', '/'})
    requires Free(authority, AUTHORITY_END) && (tail == "" || tail[0] in AUTHORITY_END)
    ensures Tail(u) == tail
  {
    hide Cut, Find, Before, From;
    ComposedSlashes(u, scheme, authority + tail);
    CutAtSeam(authority + tail, authority, tail, AUTHORITY_END);
  }

  lemma NoTail(u: string)
    requires BehindSlashes(u).None?
    ensures Parse(u).ToString() == u && !FragmentHidesQuery(Tail(u))
  {
    hide Find, Cut;
  }

  lemma PrintedBehind(u: string, main: string, tail: string, query: string, fragment: string)
    requires u == main + tail
    ensures u[..|u| - |From(tail, PATH_END)|] + query + fragment == main + (Before(tail, PATH_END) + query + fragment)
    ensures main + (Before(tail, PATH_END) + query + fragment) == u <==>
            Before(tail, PATH_END) + query + fragment == tail
  {
    hide Cut;
    var printed := Before(tail, PATH_END) + query + fragment;
    assert u[..|u| - |From(tail, PATH_END)|] == main + Before(tail, PATH_END);
    if main + printed == u {
      assert printed == (main + printed)[|main|..];
      assert tail == u[|main|..];
    }
  }

  lemma Halves(s: string, cs: set<char>)
    ensures Before(s, cs) + From(s, cs) == s && Free(Before(s, cs), cs) && (From(s, cs) != "" ==> From(s, cs)[0] in cs)
    ensures |Before(s, cs)| == Cut(s, cs)
  {
    hide Cut;
  }

  /** The path ends at the '?' or at the '#', whichever comes first. */
  lemma FirstOfTwo(tail: string)
    ensures var p, q, f := Cut(tail, PATH_END), Cut(tail, {'?'}), Cut(tail, {'#'});
            p == if q < f then q else f
    ensures '?' in tail <==> Cut(tail, {'?'}) < |tail|
  {
    hide Cut;
    var p, q, f := Cut(tail, PATH_END), Cut(tail, {'?'}), Cut(tail, {'#'});
    assert p < |tail| ==> tail[p] == '?' || tail[p] == '#';
    assert q < |tail| ==> tail[q] == '?';
    assert f < |tail| ==> tail[f] == '#';
  }

  lemma HidesQuery(tail: string)
    ensures FragmentHidesQuery(tail) <==> Cut(tail, {'#'}) < Cut(tail, {'?'}) < |tail|
  {
    hide Cut;
    var q, f := Cut(tail, {'?'}), Cut(tail, {'#'});
    FirstOfTwo(tail);
    if f < q {
      assert tail[..q][f] == '#';
    }
  }

  /** The three parts of a tail that are printed, against the tail. */
  lemma TailPrints(tail: string)
    ensures var printed := Before(tail, PATH_END) + QueryOf(tail) + FragmentOf(tail);
            if FragmentHidesQuery(tail) then |printed| > |tail| else printed == tail
  {
    hide Cut, FragmentHidesQuery;
    var q, f := Cut(tail, {'?'}), Cut(tail, {'#'});
    FirstOfTwo(tail);
    HidesQuery(tail);
    if q < f {
      QueryFirst(tail);
    } else {
      FragmentFirst(tail);
    }
  }

  lemma QueryFirst(tail: string)
    requires Cut(tail, {'?'}) < Cut(tail, {'#'}) && Cut(tail, PATH_END) == Cut(tail, {'?'})
    ensures Before(tail, PATH_END) + QueryOf(tail) + FragmentOf(tail) == tail
  {
    hide Cut;
    var head, fromQuery := Before(tail, {'?'}), From(tail, {'?'});
    Halves(tail, {'?'});
    assert Free(head, {'#'});
    CutConcat(head, fromQuery, {'#'});
    Halves(fromQuery, {'#'});
    Regroup(head, QueryOf(tail), FragmentOf(tail));
  }

  lemma FragmentFirst(tail: string)
    requires Cut(tail, {'#'}) <= Cut(tail, {'?'}) && Cut(tail, PATH_END) == Cut(tail, {'#'})
    ensures var printed := Before(tail, PATH_END) + QueryOf(tail) + FragmentOf(tail);
            if Cut(tail, {'?'}) < |tail| then |printed| > |tail| else printed == tail
  {
    hide Cut;
    var fromQuery := From(tail, {'?'});
    Halves(tail, {'#'});
    Halves(tail, {'?'});
    Halves(fromQuery, {'#'});
    if fromQuery == "" {
      assert QueryOf(tail) == "";
      assert Before(tail, PATH_END) + "" == Before(tail, PATH_END);
    } else {
      assert From(fromQuery, {'#'}) != fromQuery;
    }
  }

  // ---- parsing recovers the components a URI was composed from ----

  /** The components of section 3 of RFC 3986; brackets around the host are not part of this model. */
  datatype Components = Components(scheme: string, userInfo: Option<string>, host: string, port: Option<string>,
                                   path: string, query: Option<string>, fragment: Option<string>)
  {
    function UserText(): string { if userInfo.Some? then userInfo.value + "@" else "" }

    function PortText(): string { if port.Some? then ":" + port.value else "" }

    function Port(): string { if port.Some? then port.value else "" }

    function QueryText(): string { if query.Some? then "?" + query.value else "" }

    function FragmentText(): string { if fragment.Some? then "#" + fragment.value else "" }

    function TailText(): string { path + (QueryText() + FragmentText()) }

    /** Everything without query and fragment. */
    function MainText(): string {
      scheme + ("://" + (UserText() + (host + (PortText() + path))))
    }

    function Composed(): string {
      scheme + ("://" + (UserText() + (host + (PortText() + TailText()))))
    }

    /** The grammar of section 3: no component contains a delimiter that would end it. */
    predicate WellFormed() {
      && Free(scheme, {':', '/'})
      && Free(UserText(), AUTHORITY_END) && (userInfo.Some? ==> Free(userInfo.value, {'@'}))
      && Free(host, HOST_END + {'@'})
      && Free(PortText(), AUTHORITY_END + {'@'})
      && Free(path, PATH_END) && (path != "" ==> path[0] == '/')
      && Free(QueryText(), {'#'})
    }

    /** What follows the first '@' behind the authority. */
    function LateText(): string {
      if '@' in TailText() then From(TailText(), {'@'})[1..] else ""
    }

    /**
     Without user info, a later '@' is taken for its end: host and port are then read from the
     text behind that '@', and are right only if the same host and port stand there.
     */
    predicate HostIsFound() {
      || userInfo.Some? || '@' !in TailText()
      || (Before(LateText(), HOST_END) == host && PortOf(From(LateText(), HOST_END), TailText()) == Port())
    }

    /** Without a query, a '?' in the fragment is taken for the start of one. */
    predicate QueryIsFound() {
      query.Some? || '?' !in FragmentText()
    }
  }

  lemma FirstSlashes(u: string, k: nat)
    requires k + 1 < |u| && u[k] == '/' && u[k + 1] == '/'
    requires forall i :: 0 <= i < k ==> u[i] != '/'
    ensures Find(u, SLASHES, 0) == Some(k)
  {
    hide Find;
    FindIsFirst(u, SLASHES, 0);
    assert OccursAt(u, SLASHES, k);
    assert forall i :: OccursAt(u, SLASHES, i) ==> u[i] == SLASHES[0];
  }

  lemma ComposedSlashes(u: string, scheme: string, rest: string)
    requires u == scheme + ("://" + rest) && Free(scheme, {':', '/'})
    ensures BehindSlashes(u) == Some(rest) && SchemeOf(u) == scheme
  {
    hide Find, Cut, Before, From;
    var k := |scheme| + 1;
    var behind := "://" + rest;
    assert u[|scheme|] == behind[0] && u[k] == behind[1] && u[k + 1] == behind[2];
    FirstSlashes(u, k);
    assert u[k + 2..] == rest;
    CutAtSeam(u, scheme, behind, {':'});
  }

  /** Path and fragment of a tail are always found; its query is, unless there is none and the fragment has a '?'. */
  lemma TailParts(path: string, query: string, fragment: string)
    requires Free(path, PATH_END) && (path != "" ==> path[0] == '/') && Free(query, {'#'})
    requires (query == "" || query[0] == '?') && (fragment == "" || fragment[0] == '#')
    ensures var tail := path + (query + fragment);
            && (tail == "" || tail[0] in AUTHORITY_END)
            && PathOf(tail) == path && From(tail, PATH_END) == query + fragment && FragmentOf(tail) == fragment
            && (QueryOf(tail) == query <==> query != "" || '?' !in fragment)
  {
    hide Cut, Before, From;
    var tail := path + (query + fragment);
    CutAtSeam(tail, path, query + fragment, PATH_END);
    PathAtSeam(tail, path);
    Regroup(path, query, fragment);
    FreeConcat(path, query, {'#'});
    CutAtSeam(tail, path + query, fragment, {'#'});
    QueryInTail(path, query, fragment);
  }

  lemma PathAtSeam(tail: string, path: string)
    requires Before(tail, PATH_END) == path && path <= tail
    requires path == "" ==> tail == "" || tail[0] != '/'
    requires path != "" ==> path[0] == '/'
    ensures PathOf(tail) == path
  {
    hide Cut, Before;
  }

  lemma QueryInTail(path: string, query: string, fragment: string)
    requires Free(path, PATH_END) && Free(query, {'#'})
    requires (query == "" || query[0] == '?') && (fragment == "" || fragment[0] == '#')
    ensures QueryOf(path + (query + fragment)) == query <==> query != "" || '?' !in fragment
  {
    hide Cut, Before, From;
    var tail := path + (query + fragment);
    CutConcat(path, query + fragment, {'?'});
    if query != "" {
      CutAtSeam(query + fragment, "", query + fragment, {'?'});
      CutAtSeam(query + fragment, query, fragment, {'#'});
    } else {
      assert query + fragment == fragment;
      QueryInFragment(fragment);
    }
  }

  lemma QueryInFragment(fragment: string)
    requires fragment == "" || fragment[0] == '#'
    ensures Before(From(fragment, {'?'}), {'#'}) == "" <==> '?' !in fragment
  {
    if '?' !in fragment {
      assert Cut(fragment, {'?'}) == |fragment|;
    } else {
      var k := Cut(fragment, {'?'});
      var i :| 0 <= i < |fragment| && fragment[i] == '?';
      assert k < |fragment|;
      assert From(fragment, {'?'})[0] == '?';
    }
  }

  /** Behind user info, host and port follow; without it, they are looked for behind the next '@', wherever it is. */
  lemma HostPortText(user: string, hostPort: string, tail: string, hasUser: bool)
    requires if hasUser then user != "" && user[|user| - 1] == '@' && Free(user[..|user| - 1], {'@'}) else user == ""
    requires !hasUser ==> Free(hostPort, {'@'})
    ensures HostPort(user + (hostPort + tail)) ==
            if hasUser || '@' !in tail then hostPort + tail else From(tail, {'@'})[1..]
  {
    hide Cut, Before;
    var rest := user + (hostPort + tail);
    if hasUser {
      var info := user[..|user| - 1];
      assert user == info + "@";
      Regroup(info, "@", hostPort + tail);
      assert ("@" + (hostPort + tail))[1..] == hostPort + tail;
      assert rest[|info|] == '@';
      CutAtSeam(rest, info, "@" + (hostPort + tail), {'@'});
    } else {
      assert rest == hostPort + tail;
      CutConcat(hostPort, tail, {'@'});
      assert '@' in rest <==> '@' in tail;
    }
  }

  lemma HostAndPort(host: string, portText: string, tail: string)
    requires Free(host, HOST_END) && (portText == "" || portText[0] == ':')
    requires tail == "" || tail[0] in AUTHORITY_END
    ensures Before(host + (portText + tail), HOST_END) == host
    ensures PortOf(From(host + (portText + tail), HOST_END), tail) == if portText == "" then "" else portText[1..]
  {
    hide Cut, Before, From;
    var behind := portText + tail;
    CutAtSeam(host + behind, host, behind, HOST_END);
    if portText != "" {
      assert behind[1..|behind| - |tail|] == portText[1..];
    }
  }

  lemma MainAndBehind(c: Components, behind: string)
    requires behind == c.QueryText() + c.FragmentText()
    ensures c.Composed() == c.MainText() + behind
  {
    hide Components.UserText, Components.PortText, Components.QueryText, Components.FragmentText;
    Regroup(c.PortText(), c.path, behind);
    Regroup(c.host, c.PortText() + c.path, behind);
    Regroup(c.UserText(), c.host + (c.PortText() + c.path), behind);
    Regroup("://", c.UserText() + (c.host + (c.PortText() + c.path)), behind);
    Regroup(c.scheme, "://" + (c.UserText() + (c.host + (c.PortText() + c.path))), behind);
  }

  /** The authority, and the texts behind the slashes and behind the user info. */
  lemma AuthorityAndTail(user: string, host: string, portText: string, tail: string)
    requires Free(user, AUTHORITY_END) && Free(host, AUTHORITY_END) && Free(portText, AUTHORITY_END)
    requires tail == "" || tail[0] in AUTHORITY_END
    ensures From(user + (host + (portText + tail)), AUTHORITY_END) == tail
    ensures user + (host + (portText + tail)) == user + ((host + portText) + tail)
  {
    hide Cut, Before, From;
    Regroup(host, portText, tail);
    Regroup(user, host + portText, tail);
    FreeConcat(host, portText, AUTHORITY_END);
    FreeConcat(user, host + portText, AUTHORITY_END);
    CutAtSeam(user + (host + (portText + tail)), user + (host + portText), tail, AUTHORITY_END);
  }

  lemma UserTextEnds(c: Components)
    requires c.WellFormed()
    ensures var user := c.UserText();
            if c.userInfo.Some?
            then user != "" && user[|user| - 1] == '@' && Free(user[..|user| - 1], {'@'})
            else user == ""
    ensures Free(c.host, AUTHORITY_END) && Free(c.host, HOST_END) && Free(c.PortText(), AUTHORITY_END)
            && Free(c.host + c.PortText(), {'@'})
    ensures c.PortText() == "" || c.PortText()[0] == ':'
    ensures c.Port() == if c.PortText() == "" then "" else c.PortText()[1..]
  {
    if c.userInfo.Some? {
      assert c.UserText()[..|c.UserText()| - 1] == c.userInfo.value;
    }
  }

  /** Host and port are recovered exactly if the '@' in front of them, if there is one, is the first. */
  lemma HostRecovered(c: Components)
    requires c.WellFormed()
    ensures var p := Parse(c.Composed());
            p.host == c.host && p.port == c.Port() <==> c.HostIsFound()
    ensures c.userInfo.None? && '@' in c.TailText() ==> Parse(c.Composed()).host == Before(c.LateText(), HOST_END)
  {
    hide Find, Cut, Before, From, PortOf, PathOf, QueryOf, FragmentOf, HostPort, BehindSlashes, SchemeOf;
    hide Components.UserText, Components.PortText, Components.Port, Components.TailText;
    var user, portText, tail := c.UserText(), c.PortText(), c.TailText();
    WellFormedTail(c);
    UserTextEnds(c);
    ComposedSlashes(c.Composed(), c.scheme, user + (c.host + (portText + tail)));
    AuthorityAndTail(user, c.host, portText, tail);
    HostPortText(user, c.host + portText, tail, c.userInfo.Some?);
    Regroup(c.host, portText, tail);
    HostAndPort(c.host, portText, tail);
  }

  lemma WellFormedTail(c: Components)
    requires c.WellFormed()
    ensures c.TailText() == "" || c.TailText()[0] in AUTHORITY_END
    ensures PathOf(c.TailText()) == c.path && FragmentOf(c.TailText()) == c.FragmentText()
    ensures From(c.TailText(), PATH_END) == c.QueryText() + c.FragmentText()
    ensures QueryOf(c.TailText()) == c.QueryText() <==> c.QueryIsFound()
    ensures Free(c.UserText(), AUTHORITY_END)
  {
    hide Cut, Before, From, PathOf, QueryOf, FragmentOf;
    TailParts(c.path, c.QueryText(), c.FragmentText());
  }

  /** Scheme, path and fragment are always recovered, and so is the text without query and fragment. */
  lemma OthersRecovered(c: Components)
    requires c.WellFormed()
    ensures var p := Parse(c.Composed());
            && p.scheme == c.scheme && p.path == c.path && p.fragment == c.FragmentText() && p.uri == c.MainText()
            && (p.query == c.QueryText() <==> c.QueryIsFound())
  {
    hide Find, Cut, Before, From, PortOf, PathOf, QueryOf, FragmentOf, HostPort, BehindSlashes, SchemeOf;
    hide Components.UserText, Components.PortText, Components.TailText, Components.MainText, Components.QueryIsFound;
    hide Components.QueryText, Components.FragmentText, Components.WellFormed;
    var user, portText, tail := c.UserText(), c.PortText(), c.TailText();
    var behind := c.QueryText() + c.FragmentText();
    WellFormedTail(c);
    UserTextEnds(c);
    SchemeIsFree(c);
    ComposedSlashes(c.Composed(), c.scheme, user + (c.host + (portText + tail)));
    AuthorityAndTail(user, c.host, portText, tail);
    MainAndBehind(c, behind);
    assert (c.MainText() + behind)[..|c.MainText()|] == c.MainText();
  }

  lemma SchemeIsFree(c: Components)
    requires c.WellFormed()
    ensures Free(c.scheme, {':', '/'})
  {
  }

  /**
   For every URI of the grammar: composing it from its components and parsing it recovers them
   all if and only if no later '@' is mistaken for the end of user info, and no '?' of the
   fragment for the start of a query.
   */
  lemma ParseRecoversComponents(c: Components)
    requires c.WellFormed()
    ensures Parse(c.Composed()) ==
            UriParts(c.MainText(), c.scheme, c.host, c.Port(), c.path, c.QueryText(), c.FragmentText())
       <==> c.HostIsFound() && c.QueryIsFound()
  {
    hide Parse, Components.HostIsFound, Components.QueryIsFound;
    hide Components.Composed, Components.MainText, Components.WellFormed;
    HostRecovered(c);
    OthersRecovered(c);
  }

  /** An '@' in the path, without user info, and another host behind it: that one is read. */
  lemma LateAtSignMovesTheHost(c: Components, front: string, behind: string)
    requires c.WellFormed() && c.userInfo.None? && c.TailText() == front + ("@" + behind)
    requires Free(front, {'@'}) && Free(behind, HOST_END)
    ensures Parse(c.Composed()).host == behind
  {
    hide Parse, Cut, Before, From, Components.TailText, Components.WellFormed, Components.Composed;
    var late := "@" + behind;
    assert c.TailText()[|front|] == late[0];
    CutAtSeam(front + late, front, late, {'@'});
    assert late[1..] == behind && behind == behind + "";
    CutAtSeam(behind, behind, "", HOST_END);
    HostRecovered(c);
  }

  lemma HostIsMovedInAnExample()
    ensures var c := Components("http", None, "h", None, "/@x", None, None); Parse(c.Composed()).host == "x" != c.host
  {
    hide Parse, Components.Composed;
    var c := Components("http", None, "h", None, "/@x", None, None);
    assert "/@x" == "/" + ("@" + "x") && "/@x" + ("" + "") == "/@x";
    assert "x"[0] != "h"[0];
    LateAtSignMovesTheHost(c, "/", "x");
  }
}
