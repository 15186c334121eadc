/** The calendar-date syntax YYYY-MM-DD (the extended calendar-date format of
    ISO 8601, section 4.1.2.2 of ISO 8601:2004), checked the way the pages
    check it: with the regular expression `\d{4}-\d{2}-\d{2}`, matched whole
    (`^…$`), at the start (`^…`) or anywhere (no anchors). Only the shape is
    checked, never the calendar. */
module DatePattern {
  import opened Text

  datatype Atom = Digit | Dash

  /** `\d{4}-\d{2}-\d{2}`, one atom per character. */
  const Shape: seq<Atom> := [Digit, Digit, Digit, Digit, Dash, Digit, Digit, Dash, Digit, Digit]

  predicate AtomMatches(a: Atom, c: char)
  {
    match a
    case Digit => IsDigit(c)
    case Dash => c == '-'
  }

  /** The pattern matches `s` starting at index `i`. */
  predicate ShapeAt(s: string, i: nat)
  {
    i + |Shape| <= |s| && forall k :: 0 <= k < |Shape| ==> AtomMatches(Shape[k], s[i + k])
  }

  /** `/^\d{4}-\d{2}-\d{2}$/.test(s)`. */
  predicate MatchesWhole(s: string)
  {
    |s| == |Shape| && ShapeAt(s, 0)
  }

  /** `/^\d{4}-\d{2}-\d{2}/.test(s)`. */
  predicate MatchesStart(s: string)
  {
    ShapeAt(s, 0)
  }

  /** `/\d{4}-\d{2}-\d{2}/.test(s)`. */
  predicate MatchesAnywhere(s: string)
  {
    exists i: nat | i <= |s| :: ShapeAt(s, i)
  }

  /** Each anchoring accepts everything the stricter one accepts. */
  lemma AnchoringWeakens(s: string)
    ensures MatchesWhole(s) ==> MatchesStart(s)
    ensures MatchesStart(s) ==> MatchesAnywhere(s)
  {
    if MatchesStart(s) {
      assert ShapeAt(s, 0);
    }
  }

  /** ... and strictly more: a full timestamp passes `^…` but not `^…$`, and
      text around a date passes the unanchored test only. */
  lemma AnchoringStrict()
    ensures MatchesStart("2024-03-01T23:00:00Z") && !MatchesWhole("2024-03-01T23:00:00Z")
    ensures MatchesAnywhere("on 2024-03-01") && !MatchesStart("on 2024-03-01")
  {
    assert ShapeAt("on 2024-03-01", 3);
    assert !AtomMatches(Shape[0], "on 2024-03-01"[0]);
  }

  /** The check is syntactic: month 13 and day 99 pass, a date with
      single-digit fields does not. */
  lemma SyntaxOnly()
    ensures MatchesWhole("2024-13-99")
    ensures !MatchesAnywhere("2024-3-1")
  {
    assert !AtomMatches(Shape[0], '-');
    assert !AtomMatches(Shape[4], '3');
  }

  /** Shape of the text around a whole match, for reading the fields back. */
  lemma WholeFields(s: string)
    requires MatchesWhole(s)
    ensures AllDigits(s[0..4]) && AllDigits(s[5..7]) && AllDigits(s[8..10])
    ensures s[4] == '-' && s[7] == '-'
  {
    assert forall k :: 0 <= k < 10 ==> AtomMatches(Shape[k], s[k]);
  }
}
