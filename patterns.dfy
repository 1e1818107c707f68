/** The regular expressions of the resume parser (server/server.js), coded
    by hand. `MatchAt(pat, s, p)` is the span that a match of `pat` starting
    at index `p` captures (the whole match, or the group the parser reads),
    and `Search` scans start indices from the left, as `String.prototype.match`
    does for a non-global pattern. Every greedy run in these patterns is
    followed by a character outside the run's class, so backtracking into a
    run never produces another match and each `MatchAt` is a plain function.
    Case-insensitive literals are compared after ASCII lower-casing. */
module Patterns {
  import opened Wrappers
  import opened Text

  datatype Span = Span(start: nat, end: nat)

  datatype Pattern =
    | YearRange       // /(20\d{2}[-–]\s*20\d{2})/
    | YearToNow       // /(20\d{2}[-–]\s*(present|current|now))/i
    | MonthToNow      // /((jan|…|dec)[a-z]*\s*20\d{2}\s*[-–]\s*(present|current|now))/i
    | MonthRange      // /((jan|…|dec)[a-z]*\s*20\d{2}\s*[-–]\s*(jan|…|dec)[a-z]*\s*20\d{2})/i
    | EducationDate   // /(20\d{2}[-–]\s*20\d{2}|20\d{2}[-–]\s*(present|current|now))/i
    | YearDash        // the `20\d{2}[-–]` alternative of the exclusion patterns
    | GpaValue        // /(gpa|cgpa)[:\s]*([0-9]+\.[0-9]+|[0-9]+\/[0-9]+)/i, group 2
    | Email           // /\b[A-Za-z0-9._%+-]+@[A-Za-z0-9.-]+\.[A-Z|a-z]{2,}\b/
    | Phone           // /(\+91[\-\s]?)?[6-9]\d{9}|\b\d{3}[-.\s]??\d{3}[-.\s]??\d{4}\b/

  // ------------------------------------------------------ character classes

  datatype CharClass = Space | Digit | Letter | ColonOrSpace | EmailLocal | EmailDomain | EmailTld

  predicate IsAsciiLetter(c: char) {
    'a' <= c <= 'z' || 'A' <= c <= 'Z'
  }

  predicate IsAlnum(c: char) {
    IsAsciiLetter(c) || IsDigit(c)
  }

  /** `\w`, which decides where `\b` holds. */
  predicate IsWordChar(c: char) {
    IsAlnum(c) || c == '_'
  }

  /** `[-–]`: a hyphen-minus or an en dash. */
  predicate IsDash(c: char) {
    c == '-' || c == '\U{2013}'
  }

  predicate InClass(c: char, cls: CharClass) {
    match cls
    case Space => IsSpace(c)
    case Digit => IsDigit(c)
    case Letter => IsAsciiLetter(c)
    case ColonOrSpace => c == ':' || IsSpace(c)
    case EmailLocal => IsAlnum(c) || c == '.' || c == '_' || c == '%' || c == '+' || c == '-'
    case EmailDomain => IsAlnum(c) || c == '.' || c == '-'
    case EmailTld => IsAsciiLetter(c) || c == '|'
  }

  /** The end of the longest run of `cls` characters starting at `p`. */
  function RunEnd(s: string, p: nat, cls: CharClass): (e: nat)
    requires p <= |s|
    ensures p <= e <= |s|
    decreases |s| - p
  {
    if p < |s| && InClass(s[p], cls) then RunEnd(s, p + 1, cls) else p
  }

  /** The run is all of class `cls` and stops at a character outside it. */
  lemma {:induction false} RunEndStops(s: string, p: nat, cls: CharClass)
    requires p <= |s|
    ensures forall k :: p <= k < RunEnd(s, p, cls) ==> InClass(s[k], cls)
    ensures RunEnd(s, p, cls) < |s| ==> !InClass(s[RunEnd(s, p, cls)], cls)
    decreases |s| - p
  {
    if p < |s| && InClass(s[p], cls) {
      RunEndStops(s, p + 1, cls);
    }
  }

  /** `\b` at index `p`. */
  predicate WordBoundary(s: string, p: nat) {
    (0 < p <= |s| && IsWordChar(s[p - 1])) != (p < |s| && IsWordChar(s[p]))
  }

  /** The lower-case literal `w` occurs at `p`, ignoring ASCII case. */
  predicate OccursAtCI(s: string, w: string, p: nat) {
    p + |w| <= |s| && Lower(s[p..p + |w|]) == w
  }

  // ------------------------------------------------------- building blocks

  /** `20\d{2}` at `p`. */
  predicate YearAt(s: string, p: nat) {
    p + 4 <= |s| && s[p] == '2' && s[p + 1] == '0' && IsDigit(s[p + 2]) && IsDigit(s[p + 3])
  }

  /** `20\d{2}[-–]\s*` at `p`: the index after the blanks. */
  function AfterYearDash(s: string, p: nat): (r: Option<nat>)
    ensures r.Some? ==> YearAt(s, p) && p + 5 <= r.value <= |s| && IsDash(s[p + 4])
  {
    if YearAt(s, p) && p + 4 < |s| && IsDash(s[p + 4]) then Some(RunEnd(s, p + 5, Space)) else None
  }

  /** `(present|current|now)`, ignoring case: the index after the word. */
  function NowWordEnd(s: string, q: nat): (r: Option<nat>)
    ensures r.Some? ==> q < r.value <= |s|
  {
    if OccursAtCI(s, "present", q) then Some(q + 7)
    else if OccursAtCI(s, "current", q) then Some(q + 7)
    else if OccursAtCI(s, "now", q) then Some(q + 3)
    else None
  }

  const Months: seq<string> := ["jan", "feb", "mar", "apr", "may", "jun", "jul", "aug", "sep", "oct", "nov", "dec"]

  /** `(jan|feb|…|dec)` at `p`, ignoring case. */
  predicate MonthAt(s: string, p: nat) {
    exists k :: 0 <= k < |Months| && OccursAtCI(s, Months[k], p)
  }

  /** `(jan|…|dec)[a-z]*\s*20\d{2}` at `p`: the index after the year. */
  function MonthYearEnd(s: string, p: nat): (r: Option<nat>)
    ensures r.Some? ==> p + 7 <= r.value <= |s|
  {
    if MonthAt(s, p) then
      var b := RunEnd(s, RunEnd(s, p + 3, Letter), Space);
      if YearAt(s, b) then Some(b + 4) else None
    else None
  }

  /** `\s*[-–]\s*` at `e`: the index after the blanks that follow the dash. */
  function DashAfter(s: string, e: nat): (r: Option<nat>)
    requires e <= |s|
    ensures r.Some? ==> e < r.value <= |s|
  {
    var c := RunEnd(s, e, Space);
    if c < |s| && IsDash(s[c]) then Some(RunEnd(s, c + 1, Space)) else None
  }

  /** `count` decimal digits from `p` on. */
  predicate DigitsAt(s: string, p: nat, count: nat) {
    p + count <= |s| && forall k :: p <= k < p + count ==> IsDigit(s[k])
  }

  /** `[6-9]\d{9}` at `p`. */
  predicate MobileAt(s: string, p: nat) {
    p < |s| && '6' <= s[p] <= '9' && DigitsAt(s, p + 1, 9)
  }

  predicate IsPhoneSeparator(c: char) {
    c == '-' || c == '.' || IsSpace(c)
  }

  // ------------------------------------------------------------- patterns

  /** A match of `pat` that starts at `p`: the captured span. */
  function MatchAt(pat: Pattern, s: string, p: nat): (r: Option<Span>)
    requires p <= |s|
    ensures r.Some? ==> p <= r.value.start < r.value.end <= |s|
    ensures r.Some? && pat != GpaValue ==> r.value.start == p
    ensures r.Some? && (pat == YearRange || pat == YearToNow || pat == EducationDate || pat == YearDash) ==>
              YearAt(s, p) && p + 4 < |s| && IsDash(s[p + 4])
    ensures r.Some? && (pat == MonthToNow || pat == MonthRange) ==> MonthAt(s, p)
    ensures r.Some? && pat == GpaValue ==> IsDigit(s[r.value.start]) && IsDigit(s[r.value.end - 1])
    decreases if pat == EducationDate then 1 else 0
  {
    match pat
    case YearRange =>
      var q := AfterYearDash(s, p);
      if q.Some? && YearAt(s, q.value) then Some(Span(p, q.value + 4)) else None
    case YearToNow =>
      var q := AfterYearDash(s, p);
      var e := if q.Some? then NowWordEnd(s, q.value) else None;
      if e.Some? then Some(Span(p, e.value)) else None
    case MonthToNow =>
      var e := MonthYearEnd(s, p);
      var q := if e.Some? then DashAfter(s, e.value) else None;
      var f := if q.Some? then NowWordEnd(s, q.value) else None;
      if f.Some? then Some(Span(p, f.value)) else None
    case MonthRange =>
      var e := MonthYearEnd(s, p);
      var q := if e.Some? then DashAfter(s, e.value) else None;
      var f := if q.Some? then MonthYearEnd(s, q.value) else None;
      if f.Some? then Some(Span(p, f.value)) else None
    case EducationDate =>
      // the two alternatives are tried in order at each start index
      var first := MatchAt(YearRange, s, p);
      if first.Some? then first else MatchAt(YearToNow, s, p)
    case YearDash =>
      if AfterYearDash(s, p).Some? then Some(Span(p, p + 5)) else None
    case GpaValue => GpaAt(s, p)
    case Email => EmailAt(s, p)
    case Phone => PhoneAt(s, p)
  }

  /** `(gpa|cgpa)[:\s]*` then `[0-9]+\.[0-9]+` or `[0-9]+\/[0-9]+`; the span
      of the number (group 2). */
  function GpaAt(s: string, p: nat): (r: Option<Span>)
    requires p <= |s|
    ensures r.Some? ==> p < r.value.start < r.value.end <= |s|
    ensures r.Some? ==> IsDigit(s[r.value.start]) && IsDigit(s[r.value.end - 1])
  {
    var kw: Option<nat> := if OccursAtCI(s, "gpa", p) then Some(p + 3)
                           else if OccursAtCI(s, "cgpa", p) then Some(p + 4)
                           else None;
    if kw.None? then None
    else
      var k := kw.value;
      var q := RunEnd(s, k, ColonOrSpace);
      var d1 := RunEnd(s, q, Digit);
      if q < d1 < |s| && (s[d1] == '.' || s[d1] == '/') then
        var d2 := RunEnd(s, d1 + 1, Digit);
        RunEndStops(s, q, Digit);
        RunEndStops(s, d1 + 1, Digit);
        if d2 > d1 + 1 then Some(Span(q, d2)) else None
      else None
  }

  /** The e-mail pattern at `p`. The local part is the whole run before the
      `@`; the domain run is shortened from the right to the last `.` that
      is followed by two or more TLD characters ending at a word boundary,
      the TLD itself shortened from the right first. */
  function EmailAt(s: string, p: nat): (r: Option<Span>)
    requires p <= |s|
    ensures r.Some? ==> r.value.start == p < r.value.end <= |s|
  {
    if !WordBoundary(s, p) then None
    else
      var le := RunEnd(s, p, EmailLocal);
      if le == p || le == |s| || s[le] != '@' then None
      else
        var q := le + 1;
        var e := TryDomain(s, q, RunEnd(s, q, EmailDomain));
        if e.Some? then Some(Span(p, e.value)) else None
  }

  /** Backtracking over the end `d` of the domain part `s[q..d]`, from the
      longest down to one character. */
  function TryDomain(s: string, q: nat, d: nat): (r: Option<nat>)
    requires d <= |s|
    ensures r.Some? ==> q < r.value <= |s|
    decreases d
  {
    if d <= q then None
    else if d < |s| && s[d] == '.' && TryTld(s, d + 1, RunEnd(s, d + 1, EmailTld)).Some? then
      TryTld(s, d + 1, RunEnd(s, d + 1, EmailTld))
    else TryDomain(s, q, d - 1)
  }

  /** Backtracking over the end `t` of `[A-Z|a-z]{2,}` starting at `start`,
      from the longest down to two characters, until `\b` holds. */
  function TryTld(s: string, start: nat, t: nat): (r: Option<nat>)
    requires t <= |s|
    ensures r.Some? ==> start + 2 <= r.value <= |s|
    decreases t
  {
    if t < start + 2 then None
    else if WordBoundary(s, t) then Some(t)
    else TryTld(s, start, t - 1)
  }

  /** The phone pattern at `p`: the `+91` mobile alternative first (with the
      optional prefix and its separator tried before dropping them), then the
      `\b\d{3}[-.\s]??\d{3}[-.\s]??\d{4}\b` alternative, whose lazy separators
      are tried absent before present. */
  function PhoneAt(s: string, p: nat): (r: Option<Span>)
    requires p <= |s|
    ensures r.Some? ==> r.value.start == p < r.value.end <= |s|
  {
    if OccursAt(s, "+91", p) && p + 3 < |s| && (s[p + 3] == '-' || IsSpace(s[p + 3])) && MobileAt(s, p + 4) then
      Some(Span(p, p + 14))
    else if OccursAt(s, "+91", p) && MobileAt(s, p + 3) then Some(Span(p, p + 13))
    else if MobileAt(s, p) then Some(Span(p, p + 10))
    else if WordBoundary(s, p) && DigitsAt(s, p, 3) then
      var e00 := GroupedTail(s, p, 0, 0);
      var e01 := GroupedTail(s, p, 0, 1);
      var e10 := GroupedTail(s, p, 1, 0);
      var e11 := GroupedTail(s, p, 1, 1);
      if e00.Some? then Some(Span(p, e00.value))
      else if e01.Some? then Some(Span(p, e01.value))
      else if e10.Some? then Some(Span(p, e10.value))
      else if e11.Some? then Some(Span(p, e11.value))
      else None
    else None
  }

  /** `\d{3}` `sep1` `\d{3}` `sep2` `\d{4}\b` after the first three digits at
      `p`, with each separator present (1) or absent (0). */
  function GroupedTail(s: string, p: nat, sep1: nat, sep2: nat): (r: Option<nat>)
    requires sep1 <= 1 && sep2 <= 1
    ensures r.Some? ==> p + 10 <= r.value <= |s|
  {
    var b1 := p + 3 + sep1;
    var b2 := b1 + 3 + sep2;
    if (sep1 == 1 ==> p + 3 < |s| && IsPhoneSeparator(s[p + 3]))
       && DigitsAt(s, b1, 3)
       && (sep2 == 1 ==> b1 + 3 < |s| && IsPhoneSeparator(s[b1 + 3]))
       && DigitsAt(s, b2, 4)
       && WordBoundary(s, b2 + 4)
    then Some(b2 + 4)
    else None
  }

  // --------------------------------------------------------------- search

  /** The first success among `attempt(p)`, `attempt(p + 1)`, …,
      `attempt(last)`. */
  function FirstSuccess(attempt: nat -> Option<Span>, p: nat, last: nat): (r: Option<Span>)
    ensures r.Some? ==> exists k :: p <= k <= last && attempt(k) == r
    decreases last + 1 - p
  {
    if p > last then None
    else if attempt(p).Some? then attempt(p)
    else FirstSuccess(attempt, p + 1, last)
  }

  /** An index that succeeds, with none before it from `p` on, is the one
      `FirstSuccess` reports. */
  lemma {:induction false} FirstSuccessFinds(attempt: nat -> Option<Span>, p: nat, q: nat, last: nat)
    requires p <= q <= last && attempt(q).Some?
    requires forall k :: p <= k < q ==> attempt(k).None?
    ensures FirstSuccess(attempt, p, last) == attempt(q)
    decreases q - p
  {
    if p < q {
      FirstSuccessFinds(attempt, p + 1, q, last);
    }
  }

  /** `FirstSuccess` fails exactly when every attempt fails. */
  lemma {:induction false} FirstSuccessNone(attempt: nat -> Option<Span>, p: nat, last: nat)
    ensures FirstSuccess(attempt, p, last).None? ==> forall k :: p <= k <= last ==> attempt(k).None?
    ensures (forall k :: p <= k <= last ==> attempt(k).None?) ==> FirstSuccess(attempt, p, last).None?
    decreases last + 1 - p
  {
    if p <= last {
      FirstSuccessNone(attempt, p + 1, last);
    }
  }

  /** What `FirstSuccess` reports is the first success from `p` on. */
  lemma {:induction false} FirstSuccessLeftmost(attempt: nat -> Option<Span>, p: nat, last: nat)
    ensures FirstSuccess(attempt, p, last).Some? ==>
              exists q :: p <= q <= last && attempt(q) == FirstSuccess(attempt, p, last)
                          && forall k :: p <= k < q ==> attempt(k).None?
    decreases last + 1 - p
  {
    if p <= last && attempt(p).None? {
      FirstSuccessLeftmost(attempt, p + 1, last);
      if FirstSuccess(attempt, p, last).Some? {
        var q :| p + 1 <= q <= last && attempt(q) == FirstSuccess(attempt, p + 1, last)
                 && forall k :: p + 1 <= k < q ==> attempt(k).None?;
        assert forall k :: p <= k < q ==> attempt(k).None?;
      }
    }
  }

  /** The attempt to match `pat` at each start index of `s`. */
  function Attempts(pat: Pattern, s: string): nat -> Option<Span> {
    (k: nat) => if k <= |s| then MatchAt(pat, s, k) else None
  }

  /** The leftmost match of `pat` starting at index `p` or later. */
  function Search(pat: Pattern, s: string, p: nat): (r: Option<Span>)
    ensures r.Some? ==> r.value.start < r.value.end <= |s|
  {
    FirstSuccess(Attempts(pat, s), p, |s|)
  }

  /** A start index where `pat` matches, with no match from `p` up to it, is
      where `Search` reports its match. */
  lemma SearchFindsFirst(pat: Pattern, s: string, p: nat, q: nat)
    requires p <= q <= |s| && MatchAt(pat, s, q).Some?
    requires forall k :: p <= k < q ==> MatchAt(pat, s, k).None?
    ensures Search(pat, s, p) == MatchAt(pat, s, q)
  {
    FirstSuccessFinds(Attempts(pat, s), p, q, |s|);
  }

  /** `Search` finds nothing exactly when no start index from `p` on has a match. */
  lemma SearchNone(pat: Pattern, s: string, p: nat)
    ensures Search(pat, s, p).None? ==> forall k :: p <= k <= |s| ==> MatchAt(pat, s, k).None?
    ensures (forall k :: p <= k <= |s| ==> MatchAt(pat, s, k).None?) ==> Search(pat, s, p).None?
  {
    FirstSuccessNone(Attempts(pat, s), p, |s|);
    assert forall k :: p <= k <= |s| ==> Attempts(pat, s)(k) == MatchAt(pat, s, k);
  }

  /** `q` is the leftmost index from `p` on where `pat` matches, and the
      match there is the one `Search` reports. */
  predicate LeftmostMatch(pat: Pattern, s: string, p: nat, q: nat) {
    p <= q <= |s| && MatchAt(pat, s, q) == Search(pat, s, p)
    && forall k: nat :: p <= k < q ==> MatchAt(pat, s, k).None?
  }

  /** A match `Search` reports starts at the leftmost index where `pat` matches. */
  lemma SearchLeftmost(pat: Pattern, s: string, p: nat)
    ensures Search(pat, s, p).Some? ==> exists q: nat :: LeftmostMatch(pat, s, p, q)
  {
    var attempt := Attempts(pat, s);
    FirstSuccessLeftmost(attempt, p, |s|);
    if Search(pat, s, p).Some? {
      var q :| p <= q <= |s| && attempt(q) == Search(pat, s, p)
               && forall k :: p <= k < q ==> attempt(k).None?;
      forall k: nat | p <= k < q ensures MatchAt(pat, s, k).None? {
        assert attempt(k).None?;
      }
      assert LeftmostMatch(pat, s, p, q);
    }
  }

  /** `pat.test(s)`. */
  predicate Matches(pat: Pattern, s: string) {
    Search(pat, s, 0).Some?
  }

  /** The text of the leftmost match (`s.match(pat)[0]`, or group 2 for the
      GPA pattern); empty when there is none. */
  function MatchText(pat: Pattern, s: string): (r: string)
    ensures r == "" <==> !Matches(pat, s)
  {
    match Search(pat, s, 0)
    case Some(sp) => s[sp.start..sp.end]
    case None => ""
  }
}
