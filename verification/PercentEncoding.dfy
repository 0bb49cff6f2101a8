/**
 Percent-encoding as the query writer uses it, after section 2.1 of RFC 3986: glib's
 g_uri_escape_string with no reserved character allowed and non-ASCII text kept, and the
 decodeURIComponent of the error page's script.
 */
module PercentEncoding {
  import opened Options
  import opened Texts
  import opened StringEdits

  predicate Unreserved(c: char) {
    || 'a' <= c <= 'z' || 'A' <= c <= 'Z' || '0' <= c <= '9'
    || c == '-' || c == '.' || c == '_' || c == '~'
  }

  predicate AllUnreserved(s: string) {
    forall i :: 0 <= i < |s| ==> Unreserved(s[i])
  }

  /** What a C function sees of a std::string: nothing behind the first NUL. */
  function CStr(s: string): string {
    Before(s, {'\0'})
  }

  const HEX_DIGITS := "0123456789ABCDEF"

  function EscapeOctet(c: char): string {
    if Unreserved(c) || c as int >= 128 then [c]
    else ['%', HEX_DIGITS[c as int / 16], HEX_DIGITS[c as int % 16]]
  }

  /** g_uri_escape_string(s.c_str(), nullptr, true) */
  function Escape(s: string): string {
    EachChar(CStr(s), EscapeOctet)
  }

  function HexValue(c: char): Option<nat> {
    if '0' <= c <= '9' then Some(c as int - '0' as int)
    else if 'A' <= c <= 'F' then Some(c as int - 'A' as int + 10)
    else if 'a' <= c <= 'f' then Some(c as int - 'a' as int + 10)
    else None
  }

  /** None for a malformed escape, and for the escapes of multi-byte characters, which Escape never writes. */
  function DecodeURIComponent(s: string): Option<string> {
    if s == "" then Some("")
    else if s[0] == '%' then
      if |s| < 3 || HexValue(s[1]).None? || HexValue(s[2]).None? then None
      else
        var octet := 16 * HexValue(s[1]).value + HexValue(s[2]).value;
        if octet >= 128 then None
        else
          match DecodeURIComponent(s[3..])
          case None => None
          case Some(rest) => Some([octet as char] + rest)
    else
      match DecodeURIComponent(s[1..])
      case None => None
      case Some(rest) => Some([s[0]] + rest)
  }

  /**
   Exactly the unreserved characters of section 2.3 of RFC 3986 and what is not ASCII are kept; any
   other is written as "%" and the two upper-case hexadecimal digits of its code.
   */
  lemma EscapedOctet(c: char)
    ensures var e := EscapeOctet(c);
            var kept := 'a' <= c <= 'z' || 'A' <= c <= 'Z' || '0' <= c <= '9' || c in "-._~" || c as int >= 128;
            && (e == [c] <==> kept)
            && (!kept ==>
                  && |e| == 3 && e[0] == '%'
                  && ('0' <= e[1] <= '9' || 'A' <= e[1] <= 'F') && ('0' <= e[2] <= '9' || 'A' <= e[2] <= 'F')
                  && DecodeURIComponent(e) == Some([c]))
  {
    hide DecodeURIComponent;
    DecodeOctet(c, "");
    assert EscapeOctet(c) + "" == EscapeOctet(c) && [c] + "" == [c];
    NothingToDecode();
    assert forall n :: 0 <= n < 16 ==> '0' <= HEX_DIGITS[n] <= '9' || 'A' <= HEX_DIGITS[n] <= 'F';
  }

  lemma NothingToDecode()
    ensures DecodeURIComponent("") == Some("")
  {
  }

  lemma HexRoundTrip(n: nat)
    requires n < 16
    ensures HexValue(HEX_DIGITS[n]) == Some(n)
  {
  }

  /** Decoding undoes escaping on every text, up to its first NUL. */
  lemma DecodeEscaped(s: string)
    ensures DecodeURIComponent(Escape(s)) == Some(CStr(s))
    ensures CStr(s) <= s && '\0' !in CStr(s) && (CStr(s) == s || s[|CStr(s)|] == '\0')
  {
    DecodeEachChar(CStr(s));
  }

  lemma {:induction false} DecodeEachChar(s: string)
    ensures DecodeURIComponent(EachChar(s, EscapeOctet)) == Some(s)
  {
    hide EachChar;
    DecodeBehind(s, "");
    assert EachChar(s, EscapeOctet) + "" == EachChar(s, EscapeOctet);
    assert s + "" == s;
  }

  /** An escaped text is decoded on its own, whatever follows it. */
  lemma {:induction false} DecodeBehind(s: string, rest: string)
    ensures DecodeURIComponent(EachChar(s, EscapeOctet) + rest) ==
            match DecodeURIComponent(rest) case None => None case Some(text) => Some(s + text)
  {
    hide EscapeOctet, DecodeURIComponent;
    var all := EachChar(s, EscapeOctet) + rest;
    if s == "" {
      assert all == rest;
      assert forall text: string :: s + text == text;
    } else {
      var c, tail := s[0], EachChar(s[1..], EscapeOctet) + rest;
      DecodeBehind(s[1..], rest);
      assert all == EscapeOctet(c) + tail;
      assert forall text: string :: s + text == [c] + (s[1..] + text);
      DecodeOctet(c, tail);
    }
  }

  lemma DecodeOctet(c: char, tail: string)
    ensures DecodeURIComponent(EscapeOctet(c) + tail) ==
            match DecodeURIComponent(tail) case None => None case Some(text) => Some([c] + text)
  {
    if Unreserved(c) || c as int >= 128 {
      assert ([c] + tail)[1..] == tail;
    } else {
      HexRoundTrip(c as int / 16);
      HexRoundTrip(c as int % 16);
      assert (EscapeOctet(c) + tail)[3..] == tail;
    }
  }

  const SEPARATORS := {'&', '=', '?', '#', '\0'}

  lemma OctetIsFree(c: char)
    ensures Free(EscapeOctet(c), SEPARATORS)
  {
    if !Unreserved(c) && c as int < 128 {
      HexRoundTrip(c as int / 16);
      HexRoundTrip(c as int % 16);
      assert forall d :: HexValue(d).Some? ==> d !in SEPARATORS;
    }
  }

  /** Nothing that separates keys, values and parts of a URI survives escaping. */
  lemma {:induction false} EscapedIsFree(s: string)
    ensures Free(EachChar(s, EscapeOctet), SEPARATORS)
  {
    hide EscapeOctet;
    if s != "" {
      EscapedIsFree(s[1..]);
      OctetIsFree(s[0]);
      FreeConcat(EscapeOctet(s[0]), EachChar(s[1..], EscapeOctet), SEPARATORS);
    }
  }

  lemma EscapeIsFree(s: string)
    ensures Free(Escape(s), SEPARATORS)
  {
    EscapedIsFree(CStr(s));
  }

  lemma NoNul(s: string)
    requires '\0' !in s
    ensures CStr(s) == s
  {
    assert Free(s, {'\0'});
    assert s == s + "";
    CutAtSeam(s, s, "", {'\0'});
  }

  lemma UnreservedKept(s: string)
    requires AllUnreserved(s)
    ensures CStr(s) == s && Escape(s) == s
  {
    NoNul(s);
    KeepsUnreserved(s);
  }

  lemma {:induction false} KeepsUnreserved(s: string)
    requires AllUnreserved(s)
    ensures EachChar(s, EscapeOctet) == s
  {
    if s != "" {
      assert forall i :: 0 <= i < |s[1..]| ==> s[1..][i] == s[i + 1];
      KeepsUnreserved(s[1..]);
    }
  }
}
