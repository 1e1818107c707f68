/** The education extractor `parseEducation` (server/server.js:611-696): a
    section-aware scan over the lines of the resume text, a four-line
    look-ahead after every degree line, an unscoped one-record fallback and
    a cap of three records. */
module Education {
  import opened Wrappers
  import opened Text
  import opened Patterns
  import opened Sections

  /** One education entry. Fields the parser does not fill are "". */
  datatype EducationRecord = EducationRecord(
    degree: string, institution: string, location: string,
    period: string, description: string, gpa: string)

  const SectionKeywords: seq<string> := ["education", "academic", "qualification", "university", "college", "institute"]
  const ExitKeywords: seq<string> := ["experience", "skill", "project"]
  /** The first degree pattern: each optional `\.` written out both ways. */
  const DegreeWords: seq<string> := ["bachelor", "btech", "b.tech", "be", "b.e", "bsc", "b.sc",
                                     "master", "mtech", "m.tech", "me", "m.e", "msc", "m.sc", "phd", "doctorate"]
  const FieldsOfStudy: seq<string> := ["computer science", "information technology", "software engineering",
                                       "electrical engineering", "mechanical engineering"]
  /** Matched case-sensitively. */
  const InstitutionWords: seq<string> := ["University", "College", "Institute"]
  const FallbackWords: seq<string> := ["University", "College", "Bachelor", "Master"]
  const LookAhead: nat := 4
  const MaxRecords: nat := 3
  const PlaceholderInstitution: string := "Educational Institution"

  // ------------------------------------------------------- line tests

  /** A short line naming education (or an institution) opens the section. */
  predicate IsHeading(line: string) {
    ContainsAny(Lower(line), SectionKeywords) && |line| < 50
  }

  predicate EndsSection(line: string) {
    ContainsAny(Lower(line), ExitKeywords)
  }

  predicate HasDegreeSignal(line: string) {
    ContainsAny(Lower(line), DegreeWords) || ContainsAny(Lower(line), FieldsOfStudy)
    || ContainsAny(line, InstitutionWords)
  }

  /** A trimmed in-section line that starts a record. */
  predicate IsAnchor(line: string) {
    line != "" && HasDegreeSignal(line)
  }

  // ---------------------------------------------- look-ahead candidates

  function InstitutionCandidate(raw: string): string {
    var t := Trim(raw);
    if t != "" && ContainsAny(t, InstitutionWords) then t else ""
  }

  function PeriodCandidate(raw: string): string {
    var t := Trim(raw);
    if t != "" then MatchText(EducationDate, t) else ""
  }

  function GpaCandidate(raw: string): string {
    var t := Trim(raw);
    if t != "" then MatchText(GpaValue, t) else ""
  }

  /** The record an anchor line produces: each field is the first match in
      the four lines that follow. */
  function AnchorRecord(lines: seq<string>, i: nat): EducationRecord
    requires i < |lines|
  {
    var hi := WindowEnd(lines, i, LookAhead);
    EducationRecord(Trim(lines[i]), FirstHit(lines, i + 1, hi, InstitutionCandidate), "",
                    FirstHit(lines, i + 1, hi, PeriodCandidate), "", FirstHit(lines, i + 1, hi, GpaCandidate))
  }

  // ------------------------------------------------- the specification

  /** The section tests on a raw line, which they trim first. */
  predicate HeadingLine(raw: string) { IsHeading(Trim(raw)) }
  predicate ExitLine(raw: string) { EndsSection(Trim(raw)) }
  predicate AnchorLine(raw: string) { IsAnchor(Trim(raw)) }

  /** The indices of the lines the section-aware scan turns into records. */
  function Anchors(lines: seq<string>): seq<nat>
  {
    SectionAnchors(lines, 0, false, HeadingLine, ExitLine, AnchorLine)
  }

  /** The record-building step, as a function of the anchor's index. */
  function Builder(lines: seq<string>): nat --> EducationRecord
  {
    (i: nat) requires i < |lines| => AnchorRecord(lines, i)
  }

  /** The records the section-aware scan finds. */
  function Found(lines: seq<string>): seq<EducationRecord>
  {
    SectionRecords(lines, HeadingLine, ExitLine, AnchorLine, Builder(lines))
  }

  /** A raw line that names a university, college, bachelor or master. */
  predicate FallbackLine(raw: string) { ContainsAny(raw, FallbackWords) }

  /** The unscoped fallback: one placeholder record for the first raw line
      that names a university, college, bachelor or master. */
  function Fallback(lines: seq<string>): (r: seq<EducationRecord>)
    ensures |r| <= 1
    ensures r != [] ==> r[0].institution == PlaceholderInstitution && r[0].period == "" && r[0].gpa == ""
  {
    match FindFrom(lines, 0, FallbackLine)
    case None => []
    case Some(k) => [EducationRecord(Trim(lines[k]), PlaceholderInstitution, "", "", "", "")]
  }

  /** What `parseEducation(text)` returns: at most three records; the
      section scan's first three when it found any, otherwise at most the
      one fallback record. */
  function EducationOf(text: string): (r: seq<EducationRecord>)
    ensures |r| <= MaxRecords
    ensures var found := Found(Lines(text));
            found != [] ==> r == found[..Min(MaxRecords, |found|)]
    ensures Found(Lines(text)) == [] ==> r == Fallback(Lines(text))
  {
    var lines := Lines(text);
    var found := Found(lines);
    var all := if found == [] then Fallback(lines) else found;
    all[..Min(MaxRecords, |all|)]
  }

  // ------------------------------------------------------------ lemmas

  /** The scan emits, in document order, one record per line that starts
      one: a line that is not a heading, lies in an open section, does not
      close it and carries a degree signal; each record is built from its
      line and the look-ahead window after it. */
  lemma ScanFollowsAnchors(lines: seq<string>)
    ensures Increasing(Anchors(lines))
    ensures forall k :: 0 <= k < |Anchors(lines)| ==> Found(lines)[k] == AnchorRecord(lines, Anchors(lines)[k])
    ensures forall j :: 0 <= j < |lines| ==>
              (j in Anchors(lines) <==> StartsRecord(lines, 0, false, j, HeadingLine, ExitLine, AnchorLine))
  {
    AnchorsIncrease(lines, 0, false, HeadingLine, ExitLine, AnchorLine);
    forall j | 0 <= j < |lines|
      ensures j in Anchors(lines) <==> StartsRecord(lines, 0, false, j, HeadingLine, ExitLine, AnchorLine)
    {
      AnchorsAreStarts(lines, 0, false, j, HeadingLine, ExitLine, AnchorLine);
    }
  }

  /** Each field of a record is the first match in its window: the window
      lines before the one that supplied it match nothing for that field. */
  lemma FirstMatchWins(lines: seq<string>, i: nat)
    requires i < |lines|
    ensures var r := AnchorRecord(lines, i);
            var hi := WindowEnd(lines, i, LookAhead);
            hi <= i + 1 + LookAhead
            && (r.institution != "" ==> exists k :: i < k < hi && r.institution == InstitutionCandidate(lines[k])
                                                   && forall j :: i < j < k ==> InstitutionCandidate(lines[j]) == "")
            && (r.period != "" ==> exists k :: i < k < hi && r.period == PeriodCandidate(lines[k])
                                              && forall j :: i < j < k ==> PeriodCandidate(lines[j]) == "")
            && (r.gpa != "" ==> exists k :: i < k < hi && r.gpa == GpaCandidate(lines[k])
                                           && forall j :: i < j < k ==> GpaCandidate(lines[j]) == "")
  {
    var hi := WindowEnd(lines, i, LookAhead);
    FirstHitIsFirst(lines, i + 1, hi, InstitutionCandidate);
    FirstHitIsFirst(lines, i + 1, hi, PeriodCandidate);
    FirstHitIsFirst(lines, i + 1, hi, GpaCandidate);
  }

  /** The fallback fires exactly when some line names one of its words, and
      then for the first such line. */
  lemma FallbackFirstLine(lines: seq<string>)
    ensures Fallback(lines) == [] ==> forall k :: 0 <= k < |lines| ==> !ContainsAny(lines[k], FallbackWords)
    ensures (forall k :: 0 <= k < |lines| ==> !ContainsAny(lines[k], FallbackWords)) ==> Fallback(lines) == []
    ensures Fallback(lines) != [] ==>
              exists k :: 0 <= k < |lines| && ContainsAny(lines[k], FallbackWords)
                && (forall m :: 0 <= m < k ==> !ContainsAny(lines[m], FallbackWords))
                && Fallback(lines)[0] == EducationRecord(Trim(lines[k]), PlaceholderInstitution, "", "", "", "")
  {
    FindFromFirst(lines, 0, FallbackLine);
    if FindFrom(lines, 0, FallbackLine).Some? {
      var k := FindFrom(lines, 0, FallbackLine).value;
      assert forall m :: 0 <= m < k ==> !FallbackLine(lines[m]);
    }
  }

  // ------------------------------------------------------ the extractor

  /** The look-ahead loop over the lines from `lo` up to `hi`, with the three field tests
      as parameters: each field keeps the first non-empty value its test
      yields. */
  method ScanWindow(lines: seq<string>, lo: nat, hi: nat,
                    instTest: string -> string, dateTest: string -> string, gpaTest: string -> string)
    returns (institution: string, period: string, gpa: string)
    requires lo <= hi <= |lines|
    ensures institution == FirstHit(lines, lo, hi, instTest)
    ensures period == FirstHit(lines, lo, hi, dateTest)
    ensures gpa == FirstHit(lines, lo, hi, gpaTest)
  {
    institution, period, gpa := "", "", "";
    var j := lo;
    while j < hi
      invariant lo <= j <= hi
      invariant institution == FirstHit(lines, lo, j, instTest)
      invariant period == FirstHit(lines, lo, j, dateTest)
      invariant gpa == FirstHit(lines, lo, j, gpaTest)
    {
      // the three tests of the source, in its order
      var inst := instTest(lines[j]);
      if institution == "" && inst != "" {
        institution := inst;
      }
      var dateMatch := dateTest(lines[j]);
      if dateMatch != "" && period == "" {
        period := dateMatch;
      }
      var gpaMatch := gpaTest(lines[j]);
      if gpaMatch != "" && gpa == "" {
        gpa := gpaMatch;
      }
      j := j + 1;
    }
  }

  /** The look-ahead for the anchor at line `i`: its four following lines,
      where a blank line yields no candidate for any field. */
  method FillFromWindow(lines: seq<string>, i: nat) returns (item: EducationRecord)
    requires i < |lines|
    ensures item == AnchorRecord(lines, i)
  {
    var institution, period, gpa :=
      ScanWindow(lines, i + 1, WindowEnd(lines, i, LookAhead), InstitutionCandidate, PeriodCandidate, GpaCandidate);
    item := EducationRecord(Trim(lines[i]), institution, "", period, "", gpa);
  }

  /** The unscoped fallback loop, stopping at the first hit. */
  method FindFallback(lines: seq<string>) returns (records: seq<EducationRecord>)
    ensures records == Fallback(lines)
  {
    records := [];
    var k := 0;
    while k < |lines|
      invariant 0 <= k <= |lines|
      invariant FindFrom(lines, k, FallbackLine) == FindFrom(lines, 0, FallbackLine)
    {
      if ContainsAny(lines[k], FallbackWords) {
        records := [EducationRecord(Trim(lines[k]), PlaceholderInstitution, "", "", "", "")];
        return;
      }
      k := k + 1;
    }
  }

  /** The section-aware loop of `parseEducation`, with the three tests on
      a line (each trims it) as parameters. */
  method ScanSection(lines: seq<string>, heading: string -> bool, exit: string -> bool, anchor: string -> bool)
    returns (records: seq<EducationRecord>)
    ensures records == MapAt(SectionAnchors(lines, 0, false, heading, exit, anchor), Builder(lines))
  {
    records := [];
    var inSection := false;
    ghost var anchors: seq<nat> := [];
    var i := 0;
    while i < |lines|
      invariant 0 <= i <= |lines|
      invariant forall k :: 0 <= k < |anchors| ==> anchors[k] < |lines|
      invariant anchors + SectionAnchors(lines, i, inSection, heading, exit, anchor)
                == SectionAnchors(lines, 0, false, heading, exit, anchor)
      invariant records == MapAt(anchors, Builder(lines))
    {
      var line := lines[i];
      SectionStep(lines, i, inSection, anchors, heading, exit, anchor);
      if heading(line) {
        inSection := true;
        i := i + 1;
        continue;
      }
      if inSection && exit(line) {
        inSection := false;
      }
      if inSection && anchor(line) {
        var item := FillFromWindow(lines, i);
        MapAtSnoc(anchors, i, Builder(lines));
        records := records + [item];
        anchors := anchors + [i];
      }
      i := i + 1;
    }
    assert anchors + [] == anchors;
  }

  /** `parseEducation(text)`. */
  method ParseEducation(text: string) returns (education: seq<EducationRecord>)
    ensures education == EducationOf(text)
  {
    var lines := Lines(text);
    var records := ScanSection(lines, HeadingLine, ExitLine, AnchorLine);
    if |records| == 0 {
      records := FindFallback(lines);
    }
    education := records[..Min(MaxRecords, |records|)];
  }
}
