/** The string utilities of backend/utils/helpers.py. */
module Helpers {
  import opened Text
  import PySlice

  const MinSessionIdLength := 5

  /** One character of the class `[a-zA-Z0-9_-]`. */
  predicate IsIdChar(c: char)
  {
    ('a' <= c <= 'z') || ('A' <= c <= 'Z') || ('0' <= c <= '9') || c == '_' || c == '-'
  }

  predicate AllIdChars(s: string)
  {
    forall i :: 0 <= i < |s| ==> IsIdChar(s[i])
  }

  /** What `re.match(r'^[a-zA-Z0-9_-]+$', s)` accepts: a non-empty run of id
      characters, optionally followed by one final newline, before which
      Python's `$` also matches. */
  predicate MatchesIdPattern(s: string)
  {
    || (|s| >= 1 && AllIdChars(s))
    || (|s| >= 2 && s[|s| - 1] == '\n' && AllIdChars(s[..|s| - 1]))
  }

  /** `validate_session_id`: too short is invalid; otherwise the regular
      expression decides, matched the way the regex engine does, with a
      greedy run of id characters followed by the end anchor. */
  method ValidateSessionId(sessionId: string) returns (valid: bool)
    ensures |sessionId| < MinSessionIdLength ==> !valid
    ensures valid <==> |sessionId| >= MinSessionIdLength && MatchesIdPattern(sessionId)
  {
    if |sessionId| == 0 || |sessionId| < MinSessionIdLength {
      return false;
    }
    var k := 0;
    while k < |sessionId| && IsIdChar(sessionId[k])
      invariant 0 <= k <= |sessionId|
      invariant forall i :: 0 <= i < k ==> IsIdChar(sessionId[i])
    {
      k := k + 1;
    }
    // `$` holds at the very end, or just before a final newline
    valid := k >= 1 && (k == |sessionId| || (k == |sessionId| - 1 && sessionId[k] == '\n'));
    if k == |sessionId| - 1 {
      assert sessionId[..k] == sessionId[..|sessionId| - 1];
    }
  }

  function Min(a: int, b: int): (m: int) { if a <= b then a else b }

  /** `sanitize_input(text, max_length=5000)`: the stripped text cut to
      `maxLength` characters with Python's `[:max_length]` (a negative limit
      drops characters from the end). */
  function SanitizeInput(text: string, maxLength: int := 5000): (r: string)
    ensures text == [] ==> r == []
    ensures |r| <= |Strip(text)| && r == Strip(text)[..|r|]
    ensures maxLength >= 0 ==> |r| == Min(|Strip(text)|, maxLength)
    ensures maxLength < 0 ==> |r| == if |Strip(text)| + maxLength >= 0 then |Strip(text)| + maxLength else 0
  {
    if text == [] then []
    else
      var t := Strip(text);
      if |t| > maxLength then PySlice.Take(t, maxLength) else t
  }

  /** Within the limit, sanitising is exactly stripping, and stripping again
      changes nothing. */
  lemma SanitizeWithinLimit(text: string, maxLength: int)
    requires |Strip(text)| <= maxLength
    ensures SanitizeInput(text, maxLength) == Strip(text)
    ensures SanitizeInput(SanitizeInput(text, maxLength), maxLength) == SanitizeInput(text, maxLength)
  {
    StripIdempotent(text);
  }

  /** Sanitising is not idempotent: cutting can leave trailing whitespace,
      which a second pass strips. */
  lemma SanitizeNotIdempotent()
    ensures SanitizeInput("ab c", 3) == "ab "
    ensures SanitizeInput(SanitizeInput("ab c", 3), 3) == "ab"
  {
    StripExampleUntouched();
    assert PySlice.Take("ab c", 3) == "ab ";
    StripExampleTrailing();
  }

  lemma StripExampleUntouched()
    ensures Strip("ab c") == "ab c"
  {
    assert "ab c"[0] == 'a' && "ab c"[3] == 'c';
    StripPadded([], "ab c", []);
    assert [] + "ab c" + [] == "ab c";
  }

  lemma StripExampleTrailing()
    ensures Strip("ab ") == "ab"
  {
    assert "ab"[0] == 'a' && "ab"[1] == 'b';
    assert AllSpace(" ") by { assert " "[0] == ' '; }
    StripPadded([], "ab", " ");
    assert [] + "ab" + " " == "ab ";
  }

  /** `truncate_text(text, max_length, suffix)`. */
  function TruncateText(text: string, maxLength: int := 100, suffix: string := "..."): (r: string)
    ensures |text| <= maxLength ==> r == text
    ensures |text| > maxLength >= |suffix| ==>
              && |r| == maxLength
              && r[..maxLength - |suffix|] == text[..maxLength - |suffix|]
              && r[maxLength - |suffix|..] == suffix
    // past the limit: a prefix of `text`, cut where Python's `[:max_length - len(suffix)]`
    // cuts (counting from the end when that bound is negative), then the suffix
    ensures |text| > maxLength ==>
              && |suffix| <= |r| <= |text| + |suffix|
              && |r| - |suffix| == (if maxLength - |suffix| >= 0 then maxLength - |suffix|
                                    else if |text| + maxLength - |suffix| >= 0 then |text| + maxLength - |suffix|
                                    else 0)
              && r[..|r| - |suffix|] == text[..|r| - |suffix|]
              && r[|r| - |suffix|..] == suffix
  {
    if |text| <= maxLength then text
    else PySlice.Take(text, maxLength - |suffix|) + suffix
  }

  /** The default arguments: `sanitize_input(text)` caps the text at 5000
      characters, and `truncate_text(text)` cuts longer text to exactly 100
      characters ending in "...". */
  lemma DefaultLimits(text: string)
    ensures |SanitizeInput(text)| <= 5000
    ensures |text| <= 100 ==> TruncateText(text) == text
    ensures |text| > 100 ==>
              && |TruncateText(text)| == 100
              && TruncateText(text)[..97] == text[..97]
              && TruncateText(text)[97..] == "..."
  {
  }

  /** With a limit shorter than the suffix the slice bound is negative, so
      Python counts it from the end: the result overshoots the limit. */
  lemma TruncateShortLimitOvershoots()
    ensures TruncateText("abcdef", 2, "...") == "abcde..."
  {
    assert PySlice.Take("abcdef", -1) == "abcde";
  }

  const TracebackMarker := "Traceback"

  /** `extract_error_message` applied to the text of an exception. */
  function ExtractErrorMessage(message: string): (r: string)
    ensures NoEdgeSpace(r)
    ensures !Contains(message, TracebackMarker) ==> r == Strip(message)
    ensures Contains(message, TracebackMarker) ==> '\n' !in r && r == Strip(LastPart(message, '\n'))
  {
    if Contains(message, TracebackMarker) then
      // `lines[-1]`; `split` never returns an empty list
      var last := LastPart(message, '\n');
      StripNoNewline(last);
      Strip(last)
    else
      Strip(message)
  }

  /** Stripping never introduces a character. */
  lemma StripNoNewline(s: string)
    requires '\n' !in s
    ensures '\n' !in Strip(s)
  {
    assert forall c :: c in Strip(s) ==> c in s by {
      var l := StripLeft(s);
      assert forall c :: c in l ==> c in s;
      var r := StripRight(l);
      assert forall c :: c in r ==> c in l;
    }
  }

  /** In the traceback case, the result is the stripped text after the last
      newline (all of the message when it has none). */
  lemma ExtractTakesLastLine(message: string)
    requires Contains(message, TracebackMarker)
    ensures exists k :: 0 <= k <= |message| && (k == 0 || message[k - 1] == '\n')
              && '\n' !in message[k..] && ExtractErrorMessage(message) == Strip(message[k..])
  {
    var last := LastPart(message, '\n');
    LastPartIsTail(message, '\n');
    var k := |message| - |last|;
    assert message[k..] == last;
  }
}
