/**
 EscapeData in web_page_blink.cc, against the lexical grammar of single-quoted string
 literals in section 12.9.4 of ECMA-262.
 */
module JsEscape {
  import opened Options
  import opened StringEdits

  /** The four replacement passes, in the order the code runs them. */
  function FourPasses(value: string): string {
    Replaced(Replaced(Replaced(Replaced(value, "\\", "\\\\"), "'", "\\'"), "\n", "\\n"), "\r", "\\r")
  }

  method EscapeData(value: string) returns (escaped: string)
    ensures escaped == FourPasses(value)
    ensures escaped == EachChar(value, EscapeChar)
  {
    escaped := value;
    escaped := ReplaceSubstr(escaped, "\\", "\\\\");
    escaped := ReplaceSubstr(escaped, "'", "\\'");
    escaped := ReplaceSubstr(escaped, "\n", "\\n");
    escaped := ReplaceSubstr(escaped, "\r", "\\r");
    FourPassesAreOne(value);
  }

  /** The escape of one character, as a single pass would write it. */
  function EscapeChar(c: char): string {
    match c
    case '\\' => "\\\\"
    case '\'' => "\\'"
    case '\n' => "\\n"
    case '\r' => "\\r"
    case _ => [c]
  }

  /** No pass spoils the output of an earlier one: together they escape each character once. */
  lemma {:induction false} FourPassesAreOne(value: string)
    ensures FourPasses(value) == EachChar(value, EscapeChar)
  {
    var p1 := EachChar(value, Swap('\\', "\\\\"));
    var p2 := EachChar(p1, Swap('\'', "\\'"));
    var p3 := EachChar(p2, Swap('\n', "\\n"));
    ReplacedIsEachChar(value, '\\', "\\\\");
    ReplacedIsEachChar(p1, '\'', "\\'");
    ReplacedIsEachChar(p2, '\n', "\\n");
    ReplacedIsEachChar(p3, '\r', "\\r");
    ChainedMaps(value);
  }

  lemma {:induction false} ChainedMaps(value: string)
    ensures EachChar(EachChar(EachChar(EachChar(value, Swap('\\', "\\\\")), Swap('\'', "\\'")), Swap('\n', "\\n")),
                     Swap('\r', "\\r"))
         == EachChar(value, EscapeChar)
  {
    var f1, f2, f3, f4 := Swap('\\', "\\\\"), Swap('\'', "\\'"), Swap('\n', "\\n"), Swap('\r', "\\r");
    if value != "" {
      ChainedMaps(value[1..]);
      var c := value[0];
      var tail := EachChar(value[1..], f1);
      EachCharConcat(f1(c), tail, f2);
      var tail2 := EachChar(tail, f2);
      EachCharConcat(EachChar(f1(c), f2), tail2, f3);
      var tail3 := EachChar(tail2, f3);
      EachCharConcat(EachChar(EachChar(f1(c), f2), f3), tail3, f4);
      OneCharChained(c);
    }
  }

  lemma OneCharChained(c: char)
    ensures EachChar(EachChar(EachChar(Swap('\\', "\\\\")(c), Swap('\'', "\\'")), Swap('\n', "\\n")), Swap('\r', "\\r"))
         == EscapeChar(c)
  {
    var f1, f2, f3, f4 := Swap('\\', "\\\\"), Swap('\'', "\\'"), Swap('\n', "\\n"), Swap('\r', "\\r");
    var s := f1(c);
    assert |s| <= 2;
    assert EachChar(s, f2) == if c == '\'' then "\\'" else s by { Short(s, f2); }
    var t := EachChar(s, f2);
    assert EachChar(t, f3) == if c == '\n' then "\\n" else t by { Short(t, f3); }
    var u := EachChar(t, f3);
    assert EachChar(u, f4) == EscapeChar(c) by { Short(u, f4); }
  }

  lemma Short(s: string, f: char -> string)
    requires |s| <= 2
    ensures EachChar(s, f) == (if |s| > 0 then f(s[0]) else "") + (if |s| > 1 then f(s[1]) else "")
  {
    if |s| == 2 {
      assert EachChar(s[1..], f) == f(s[1]) + EachChar(s[1..][1..], f);
    }
  }

  /** A text is changed by the four passes exactly if it has one of the four characters. */
  lemma {:induction false} OnlyFourAreEscaped(value: string)
    ensures FourPasses(value) == value <==> forall c :: c in value ==> c != '\\' && c != '\'' && c != '\n' && c != '\r'
  {
    hide FourPasses;
    FourPassesAreOne(value);
    EscapedLength(value);
    if forall c :: c in value ==> c != '\\' && c != '\'' && c != '\n' && c != '\r' {
      NothingToEscape(value);
    }
  }

  lemma {:induction false} EscapedLength(value: string)
    ensures |EachChar(value, EscapeChar)| >= |value|
    ensures |EachChar(value, EscapeChar)| == |value| ==>
              forall c :: c in value ==> c != '\\' && c != '\'' && c != '\n' && c != '\r'
  {
    if value != "" {
      EscapedLength(value[1..]);
      assert value == [value[0]] + value[1..];
    }
  }

  lemma {:induction false} NothingToEscape(value: string)
    requires forall c :: c in value ==> c != '\\' && c != '\'' && c != '\n' && c != '\r'
    ensures EachChar(value, EscapeChar) == value
  {
    if value != "" {
      assert value[0] in value && forall c :: c in value[1..] ==> c in value;
      NothingToEscape(value[1..]);
      assert value == [value[0]] + value[1..];
    }
  }

  // ---- the reader ----

  /** What the character after a backslash stands for; None where this model has no reading. */
  function SingleEscape(c: char): Option<string> {
    match c
    case 'b' => Some("\U{08}")
    case 'f' => Some("\U{0C}")
    case 'n' => Some("\n")
    case 'r' => Some("\r")
    case 't' => Some("\t")
    case 'v' => Some("\U{0B}")
    case '\n' => Some("")
    case '\r' => Some("")
    case '\U{2028}' => Some("")
    case '\U{2029}' => Some("")
    case _ => if c == 'x' || c == 'u' || '0' <= c <= '9' then None else Some([c])
  }

  /**
   Reads the characters that follow an opening single quote: the string value and the
   text after the closing quote. None for an unterminated literal or a raw line end.
   */
  function ScanLiteral(s: string): Option<(string, string)> {
    if s == "" then None
    else if s[0] == '\'' then Some(("", s[1..]))
    else if s[0] == '\n' || s[0] == '\r' then None
    else if s[0] == '\\' then
      if |s| == 1 || SingleEscape(s[1]).None? then None
      else
        match ScanLiteral(s[2..])
        case None => None
        case Some((value, rest)) => Some((SingleEscape(s[1]).value + value, rest))
    else
      match ScanLiteral(s[1..])
      case None => None
      case Some((value, rest)) => Some(([s[0]] + value, rest))
  }

  /** One escaped character is read as the character, and the scanner goes on behind it. */
  lemma ScanOne(c: char, tail: string)
    ensures ScanLiteral(EscapeChar(c) + tail) ==
            match ScanLiteral(tail) case None => None case Some((value, rest)) => Some(([c] + value, rest))
  {
    var e := EscapeChar(c);
    assert (e + tail)[0] == e[0] && (e + tail)[|e|..] == tail;
    if |e| == 2 {
      assert (e + tail)[1] == e[1];
    }
  }

  lemma ScanQuote(rest: string)
    ensures ScanLiteral("'" + rest) == Some(("", rest))
  {
    assert ("'" + rest)[0] == '\'' && ("'" + rest)[1..] == rest;
  }

  lemma EscapedFirst(value: string, rest: string)
    requires value != ""
    ensures EachChar(value, EscapeChar) + "'" + rest ==
            EscapeChar(value[0]) + (EachChar(value[1..], EscapeChar) + "'" + rest)
    ensures value == [value[0]] + value[1..]
  {
    hide EscapeChar;
    Regroup(EscapeChar(value[0]), EachChar(value[1..], EscapeChar), "'");
    Regroup(EscapeChar(value[0]), EachChar(value[1..], EscapeChar) + "'", rest);
  }

  /**
   Whatever the value and whatever follows, the scanner stops exactly at the quote that was
   put after the escaped value and has read the value itself.
   */
  lemma {:induction false} EscapedLiteralReadsBack(value: string, rest: string)
    ensures ScanLiteral(EachChar(value, EscapeChar) + "'" + rest) == Some((value, rest))
  {
    hide ScanLiteral, EscapeChar, EachChar;
    if value == "" {
      NothingEscaped(rest);
      ScanQuote(rest);
    } else {
      EscapedLiteralReadsBack(value[1..], rest);
      EscapedFirst(value, rest);
      ScanOne(value[0], EachChar(value[1..], EscapeChar) + "'" + rest);
    }
  }

  lemma NothingEscaped(rest: string)
    ensures EachChar("", EscapeChar) + "'" + rest == "'" + rest
  {
  }

  const CALL_START := "  webOSSystem.updateInjectionData('"
  const BETWEEN := "', '"
  const CALL_END := "');"

  /** The call that UpdateExtensionData puts into its script. */
  function InjectionCall(key: string, value: string): string {
    CALL_START + FourPasses(key) + BETWEEN + FourPasses(value) + CALL_END
  }

  /** Both arguments of the generated call are read back unchanged, with nothing left over. */
  lemma InjectionCallReadsBack(key: string, value: string)
    ensures CALL_START == "  webOSSystem.updateInjectionData('" && CALL_START <= InjectionCall(key, value)
    ensures var first := ScanLiteral(InjectionCall(key, value)[|CALL_START|..]);
            && first.Some? && first.value.0 == key && ", '" <= first.value.1
            && ScanLiteral(first.value.1[3..]) == Some((value, ");"))
  {
    hide ScanLiteral, EachChar, EscapeChar, FourPasses;
    FourPassesAreOne(key);
    FourPassesAreOne(value);
    var first, second := FourPasses(key), FourPasses(value);
    CallText(first, second);
    EscapedLiteralReadsBack(key, ", '" + (second + "'" + ");"));
    EscapedLiteralReadsBack(value, ");");
  }

  lemma CallText(first: string, second: string)
    ensures var call := CALL_START + first + BETWEEN + second + CALL_END;
            && CALL_START <= call
            && call[|CALL_START|..] == first + "'" + (", '" + (second + "'" + ");"))
            && (", '" + (second + "'" + ");"))[3..] == second + "'" + ");"
            && ", '" <= ", '" + (second + "'" + ");")
  {
    var call := CALL_START + first + BETWEEN + second + CALL_END;
    assert call == CALL_START + (first + BETWEEN + second + CALL_END);
    assert BETWEEN == "'" + ", '" && CALL_END == "'" + ");";
    assert first + BETWEEN + second + CALL_END == first + "'" + (", '" + (second + "'" + ");"));
  }
}
