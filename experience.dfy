/** The work-experience extractor `parseExperience` (server/server.js:698-797):
    a section-aware scan like the education one, anchors recognised by job
    titles, `at ` or `@`, a nine-line look-ahead for the company, the period
    and the achievement bullets, a three-line description used only when
    there are no bullets, and a cap of four records. */
module Experience {
  import opened Wrappers
  import opened Text
  import opened Patterns
  import opened Sections

  /** One work entry. `location` is never filled by the parser. */
  datatype ExperienceRecord = ExperienceRecord(
    position: string, company: string, location: string,
    period: string, description: string, achievements: seq<string>)

  const SectionKeywords: seq<string> := ["experience", "work", "employment", "professional", "career"]
  const ExitKeywords: seq<string> := ["education", "skill", "project"]
  /** `/(developer|engineer|analyst|specialist|manager|consultant|intern|associate)/i` */
  const JobWords: seq<string> := ["developer", "engineer", "analyst", "specialist", "manager", "consultant", "intern", "associate"]
  /** The words of the description filter besides `20\d{2}[-–]`. */
  const DescriptionStopWords: seq<string> := ["university", "college", "education", "skill"]
  /** The date patterns, in the order the look-ahead tries them. */
  const PeriodPatterns: seq<Pattern> := [YearRange, YearToNow, MonthToNow, MonthRange]
  /** The look-ahead covers `j < i + 10`: nine lines. */
  const LookAhead: nat := 9
  /** The description covers `j < i + 4`: three lines. */
  const DescriptionLines: nat := 3
  const MaxRecords: nat := 4

  // ------------------------------------------------------- line tests

  predicate IsHeading(line: string) {
    ContainsAny(Lower(line), SectionKeywords) && |line| < 50
  }

  predicate EndsSection(line: string) {
    ContainsAny(Lower(line), ExitKeywords)
  }

  /** `.` in a JavaScript regular expression matches anything but these. */
  predicate IsLineTerminator(c: char) {
    c == '\n' || c == '\r' || c == '\U{2028}' || c == '\U{2029}'
  }

  /** `a.?b` matches at `p`. */
  predicate LooseAt(s: string, a: string, b: string, p: nat) {
    OccursAt(s, a, p)
    && (OccursAt(s, b, p + |a|)
        || (p + |a| < |s| && !IsLineTerminator(s[p + |a|]) && OccursAt(s, b, p + |a| + 1)))
  }

  /** `a.?b` matches somewhere at or after `p`. */
  predicate HasLoose(s: string, a: string, b: string, p: nat)
    decreases |s| - p
  {
    p <= |s| && (LooseAt(s, a, b, p) || HasLoose(s, a, b, p + 1))
  }

  /** The two job-title patterns, both case-insensitive. */
  predicate HasJobTitle(line: string) {
    var low := Lower(line);
    ContainsAny(low, JobWords)
    || HasLoose(low, "full", "stack", 0) || HasLoose(low, "front", "end", 0)
    || HasLoose(low, "back", "end", 0) || Contains(low, "software") || Contains(low, "web")
  }

  /** A trimmed in-section line that starts a record. The `at ` test is
      case-sensitive and needs no blank before it. */
  predicate IsAnchor(line: string) {
    line != "" && (HasJobTitle(line) || Contains(line, "at ") || Contains(line, "@"))
  }

  /** The anchor line split at its first ` at ` (in any case) into a trimmed
      position and company; without one, the whole line and no company. */
  function AtSplit(line: string): (r: (string, string))
  {
    var at := IndexFrom(Lower(line), " at ", 0);
    if at.Some? then (Trim(line[..at.value]), Trim(line[at.value + 4..])) else (line, "")
  }

  // ---------------------------------------------- look-ahead candidates

  /** `/(20\d{2}[-–]|jan|feb|…|dec)/i`: a line that looks like a date. */
  predicate MentionsDate(t: string) {
    Matches(YearDash, t) || ContainsAny(Lower(t), Months)
  }

  /** A short non-date line names the company. */
  function CompanyCandidate(raw: string): string {
    var t := Trim(raw);
    if t != "" && |t| < 100 && !MentionsDate(t) then t else ""
  }

  /** The whole match of the first pattern of `pats` that matches `t`. */
  function FirstPatternMatch(t: string, pats: seq<Pattern>): string
  {
    FirstHit(pats, 0, |pats|, (p: Pattern) => MatchText(p, t))
  }

  function PeriodCandidate(raw: string): string {
    var t := Trim(raw);
    if t != "" then FirstPatternMatch(t, PeriodPatterns) else ""
  }

  predicate IsBulletMark(c: char) {
    c == '\U{2022}' || c == '-' || c == '*'
  }

  /** `/^[•\-*]\s/` */
  predicate IsBulletItem(t: string) {
    |t| >= 2 && IsBulletMark(t[0]) && IsSpace(t[1])
  }

  /** `/^[0-9]+\.\s/` */
  predicate IsNumberedItem(t: string) {
    var e := RunEnd(t, 0, Digit);
    0 < e && e + 1 < |t| && t[e] == '.' && IsSpace(t[e + 1])
  }

  predicate IsAchievementLine(raw: string) {
    var t := Trim(raw);
    t != "" && (IsBulletItem(t) || IsNumberedItem(t))
  }

  /** `replace(/^[•\-*]\s*\/, '').trim()`: the bullet mark and the blanks
      after it are dropped; a numbered item keeps its number. */
  function AchievementText(raw: string): string {
    var t := Trim(raw);
    if t != "" && IsBulletMark(t[0]) then Trim(t[RunEnd(t, 1, Space)..]) else Trim(t)
  }

  predicate IsDescriptionLine(raw: string) {
    var t := Trim(raw);
    t != "" && !Matches(YearDash, t) && !ContainsAny(Lower(t), DescriptionStopWords)
  }

  /** The description text as the loop builds it: every accepted line of
      `ls[lo..hi]`, trimmed, followed by one blank. */
  function Accumulate(ls: seq<string>, lo: nat, hi: nat, keep: string -> bool): string
    requires lo <= hi <= |ls|
    decreases hi
  {
    if hi == lo then ""
    else
      var x := ls[hi - 1];
      Accumulate(ls, lo, hi - 1, keep) + (if keep(x) then Trim(x) + " " else "")
  }

  // ------------------------------------------------- the specification

  /** The record the anchor at line `i` produces. */
  function ExperienceItem(lines: seq<string>, i: nat): ExperienceRecord
    requires i < |lines|
  {
    var split := AtSplit(Trim(lines[i]));
    var hi := WindowEnd(lines, i, LookAhead);
    var achievements := Harvest(lines, i + 1, hi, IsAchievementLine, AchievementText);
    var description :=
      if achievements == [] then Trim(Accumulate(lines, i + 1, WindowEnd(lines, i, DescriptionLines), IsDescriptionLine))
      else "";
    ExperienceRecord(split.0, if split.1 != "" then split.1 else FirstHit(lines, i + 1, hi, CompanyCandidate), "",
                     FirstHit(lines, i + 1, hi, PeriodCandidate), description, achievements)
  }

  /** The section tests on a raw line, which they trim first. */
  predicate HeadingLine(raw: string) { IsHeading(Trim(raw)) }
  predicate ExitLine(raw: string) { EndsSection(Trim(raw)) }
  predicate AnchorLine(raw: string) { IsAnchor(Trim(raw)) }

  /** The indices of the lines the section-aware scan turns into records. */
  function Anchors(lines: seq<string>): seq<nat>
  {
    SectionAnchors(lines, 0, false, HeadingLine, ExitLine, AnchorLine)
  }

  /** The record-building step, as a function of the anchor's index. */
  function Builder(lines: seq<string>): nat --> ExperienceRecord
  {
    (i: nat) requires i < |lines| => ExperienceItem(lines, i)
  }

  /** The records the section-aware scan finds. */
  function Found(lines: seq<string>): seq<ExperienceRecord>
  {
    SectionRecords(lines, HeadingLine, ExitLine, AnchorLine, Builder(lines))
  }

  /** What `parseExperience(text)` returns: the first four records of the scan. */
  function ExperienceOf(text: string): (r: seq<ExperienceRecord>)
    ensures |r| <= MaxRecords
    ensures var found := Found(Lines(text));
            |r| <= |found| && r == found[..|r|] && (|r| < MaxRecords ==> r == found)
  {
    var found := Found(Lines(text));
    found[..Min(MaxRecords, |found|)]
  }

  // ------------------------------------------------------------ lemmas

  /** The scan emits, in document order, one record per line that starts
      one: a line that is not a heading, lies in an open section, does not
      close it and names a job title, `at ` or `@`; each record is built from
      its line and the look-ahead window after it. */
  lemma ScanFollowsAnchors(lines: seq<string>)
    ensures Increasing(Anchors(lines))
    ensures forall k :: 0 <= k < |Anchors(lines)| ==> Found(lines)[k] == ExperienceItem(lines, Anchors(lines)[k])
    ensures forall j :: 0 <= j < |lines| ==>
              (j in Anchors(lines) <==> StartsRecord(lines, 0, false, j, HeadingLine, ExitLine, AnchorLine))
  {
    AnchorsIncrease(lines, 0, false, HeadingLine, ExitLine, AnchorLine);
    forall j | 0 <= j < |lines|
      ensures j in Anchors(lines) <==> StartsRecord(lines, 0, false, j, HeadingLine, ExitLine, AnchorLine)
    {
      AnchorsAreStarts(lines, 0, false, j, HeadingLine, ExitLine, AnchorLine);
    }
  }

  /** A trimmed anchor with ` at ` (in any case) splits into a non-empty,
      trimmed position before it and a non-empty, trimmed company after it. */
  lemma AtSplitParts(line: string)
    requires IsTrimmed(line) && IndexFrom(Lower(line), " at ", 0).Some?
    ensures var a := IndexFrom(Lower(line), " at ", 0).value;
            var r := AtSplit(line);
            0 < a && a + 4 < |line|
            && r.0 == Trim(line[..a]) && r.0 != "" && IsTrimmed(r.0)
            && r.1 == Trim(line[a + 4..]) && r.1 != "" && IsTrimmed(r.1)
  {
    var a := IndexFrom(Lower(line), " at ", 0).value;
    var low := Lower(line);
    assert OccursAt(low, " at ", a);
    assert low[a] == low[a..a + 4][0] == ' ';
    assert low[a + 3] == low[a..a + 4][3] == ' ';
    assert LowerChar(line[a]) == ' ' && LowerChar(line[a + 3]) == ' ';
    assert line[a] == ' ' && line[a + 3] == ' ';
    assert a != 0 && a + 3 != |line| - 1;
    var before, after := line[..a], line[a + 4..];
    TrimEmpty(before);
    TrimEmpty(after);
    assert !IsSpace(before[0]);
    assert !IsSpace(after[|after| - 1]);
    TrimIsTrimmed(before);
    TrimIsTrimmed(after);
  }

  /** The patterns are tried in order: the result is the match of the first
      pattern that matches, and "" when none does. */
  lemma FirstPatternWins(t: string, pats: seq<Pattern>)
    ensures FirstPatternMatch(t, pats) == "" ==> forall m :: 0 <= m < |pats| ==> !Matches(pats[m], t)
    ensures (forall m :: 0 <= m < |pats| ==> !Matches(pats[m], t)) ==> FirstPatternMatch(t, pats) == ""
    ensures FirstPatternMatch(t, pats) != "" ==>
              exists m :: 0 <= m < |pats| && FirstPatternMatch(t, pats) == MatchText(pats[m], t)
                && forall n :: 0 <= n < m ==> !Matches(pats[n], t)
  {
    var f := (p: Pattern) => MatchText(p, t);
    FirstHitIsFirst(pats, 0, |pats|, f);
    assert forall m :: 0 <= m < |pats| ==> (f(pats[m]) == "" <==> !Matches(pats[m], t));
  }

  /** Description lines are trimmed and non-empty. */
  lemma DescriptionLineText(raw: string)
    requires IsDescriptionLine(raw)
    ensures Trim(raw) != "" && IsTrimmed(Trim(raw))
  {
    TrimIsTrimmed(raw);
  }

  /** The loop's text is the accepted lines, trimmed, joined by one blank,
      with one blank after the last. */
  lemma {:induction false} AccumulateShape(ls: seq<string>, lo: nat, hi: nat, keep: string -> bool)
    requires lo <= hi <= |ls|
    ensures var h := Harvest(ls, lo, hi, keep, Trim);
            Accumulate(ls, lo, hi, keep) == if h == [] then "" else Join(h, " ") + " "
    decreases hi
  {
    if hi == lo {
      assert Harvest(ls, lo, hi, keep, Trim) == [] && Accumulate(ls, lo, hi, keep) == "";
    } else {
      var x := ls[hi - 1];
      AccumulateShape(ls, lo, hi - 1, keep);
      var h, hp := Harvest(ls, lo, hi, keep, Trim), Harvest(ls, lo, hi - 1, keep, Trim);
      var ap := Accumulate(ls, lo, hi - 1, keep);
      if !keep(x) {
        assert h == hp && Accumulate(ls, lo, hi, keep) == ap + "" == ap;
      } else if hp == [] {
        assert h == [Trim(x)] && Accumulate(ls, lo, hi, keep) == "" + Trim(x) + " ";
      } else {
        assert h == hp + [Trim(x)];
        JoinSnoc(hp, Trim(x), " ");
        assert Accumulate(ls, lo, hi, keep) == (Join(hp, " ") + " ") + Trim(x) + " ";
      }
    }
  }

  /** The loop's text, trimmed, is the accepted lines joined by one blank. */
  lemma AccumulateJoin(ls: seq<string>, lo: nat, hi: nat, keep: string -> bool)
    requires lo <= hi <= |ls|
    requires forall x :: keep(x) ==> Trim(x) != ""
    ensures Trim(Accumulate(ls, lo, hi, keep)) == Join(Harvest(ls, lo, hi, keep, Trim), " ")
  {
    var h := Harvest(ls, lo, hi, keep, Trim);
    AccumulateShape(ls, lo, hi, keep);
    if h != [] {
      HarvestTrimmed(ls, lo, hi, keep);
      JoinTrimmed(h);
      TrimBlankAfter(Join(h, " "));
    }
  }

  /** What `keep` accepts is non-empty once trimmed, so every collected
      item is non-empty and trimmed. */
  lemma {:induction false} HarvestTrimmed(ls: seq<string>, lo: nat, hi: nat, keep: string -> bool)
    requires lo <= hi <= |ls|
    requires forall x :: keep(x) ==> Trim(x) != ""
    ensures forall k :: 0 <= k < |Harvest(ls, lo, hi, keep, Trim)| ==>
              Harvest(ls, lo, hi, keep, Trim)[k] != "" && IsTrimmed(Harvest(ls, lo, hi, keep, Trim)[k])
    decreases hi
  {
    if hi > lo {
      HarvestTrimmed(ls, lo, hi - 1, keep);
      TrimIsTrimmed(ls[hi - 1]);
    }
  }

  /** The at-split company is kept; otherwise the company is the first
      window line that qualifies, and no earlier window line qualified. */
  lemma CompanyFirstOrSplit(lines: seq<string>, i: nat)
    requires i < |lines|
    ensures var r := ExperienceItem(lines, i);
            var split := AtSplit(Trim(lines[i]));
            var hi := WindowEnd(lines, i, LookAhead);
            (split.1 != "" ==> r.company == split.1)
            && (split.1 == "" && r.company != "" ==>
                  exists k :: i < k < hi && r.company == CompanyCandidate(lines[k]) == Trim(lines[k])
                    && forall j :: i < j < k ==> CompanyCandidate(lines[j]) == "")
            && (split.1 == "" && r.company == "" ==> forall k :: i < k < hi ==> CompanyCandidate(lines[k]) == "")
  {
    FirstHitIsFirst(lines, i + 1, WindowEnd(lines, i, LookAhead), CompanyCandidate);
  }

  /** The period comes from the earliest window line where any date pattern
      matches, and from the first of the patterns that matches that line. */
  lemma PeriodFromFirstDatedLine(lines: seq<string>, i: nat)
    requires i < |lines|
    ensures var r := ExperienceItem(lines, i);
            var hi := WindowEnd(lines, i, LookAhead);
            (r.period == "" ==> forall k :: i < k < hi ==> PeriodCandidate(lines[k]) == "")
            && (r.period != "" ==>
                  exists k :: i < k < hi && r.period == FirstPatternMatch(Trim(lines[k]), PeriodPatterns)
                    && forall j :: i < j < k ==> PeriodCandidate(lines[j]) == "")
  {
    FirstHitIsFirst(lines, i + 1, WindowEnd(lines, i, LookAhead), PeriodCandidate);
  }

  /** Achievements come only from bullet or numbered lines among the next
      nine; the description is used only without achievements and is the
      qualifying lines among the next three, joined by one blank. */
  lemma AchievementsOrDescription(lines: seq<string>, i: nat)
    requires i < |lines|
    ensures var r := ExperienceItem(lines, i);
            var hi := WindowEnd(lines, i, LookAhead);
            var hd := WindowEnd(lines, i, DescriptionLines);
            hi <= i + 10 && hd <= i + 4
            && (forall y :: y in r.achievements ==>
                  exists k :: i < k < hi && IsAchievementLine(lines[k]) && y == AchievementText(lines[k]))
            && (r.achievements == [] <==> forall k :: i < k < hi ==> !IsAchievementLine(lines[k]))
            && (r.description != "" ==> r.achievements == [])
            && (r.achievements == [] ==> r.description == Join(Harvest(lines, i + 1, hd, IsDescriptionLine, Trim), " "))
  {
    var hi := WindowEnd(lines, i, LookAhead);
    var hd := WindowEnd(lines, i, DescriptionLines);
    HarvestFrom(lines, i + 1, hi, IsAchievementLine, AchievementText);
    forall x | IsDescriptionLine(x) ensures Trim(x) != "" {
      DescriptionLineText(x);
    }
    AccumulateJoin(lines, i + 1, hd, IsDescriptionLine);
  }

  /** A numbered item keeps its number; a bullet item loses its mark and the
      blanks after it, and what is left is non-empty and starts with no blank. */
  lemma AchievementMarkers(raw: string)
    requires IsAchievementLine(raw)
    ensures var t := Trim(raw);
            (IsNumberedItem(t) ==> AchievementText(raw) == t)
            && (IsBulletItem(t) ==> exists e :: 2 <= e < |t| && AchievementText(raw) == t[e..]
                                                && !IsSpace(t[e]))
  {
    var t := Trim(raw);
    TrimIsTrimmed(raw);
    TrimTrimmed(t);
    if IsNumberedItem(t) {
      RunEndStops(t, 0, Digit);
      assert IsDigit(t[0]);
    }
    if IsBulletItem(t) {
      var e := RunEnd(t, 1, Space);
      RunEndStops(t, 1, Space);
      assert e != |t| by {
        assert !IsSpace(t[|t| - 1]);
      }
      var u := t[e..];
      assert u[|u| - 1] == t[|t| - 1];
      assert IsTrimmed(u);
      TrimTrimmed(u);
    }
  }

  // ------------------------------------------------------ the extractor

  /** The look-ahead loop over the lines from `lo` up to `hi`, with the line tests as
      parameters: the company (unless one is given) and the period keep the
      first value found; achievement lines are collected in order. */
  method LookAheadLoop(lines: seq<string>, lo: nat, hi: nat, company0: string,
                       companyTest: string -> string, periodTest: string -> string,
                       isItem: string -> bool, itemText: string -> string)
    returns (company: string, period: string, achievements: seq<string>)
    requires lo <= hi <= |lines|
    ensures company == if company0 != "" then company0 else FirstHit(lines, lo, hi, companyTest)
    ensures period == FirstHit(lines, lo, hi, periodTest)
    ensures achievements == Harvest(lines, lo, hi, isItem, itemText)
  {
    company, period, achievements := company0, "", [];
    var j := lo;
    while j < hi
      invariant lo <= j <= hi
      invariant company == if company0 != "" then company0 else FirstHit(lines, lo, j, companyTest)
      invariant period == FirstHit(lines, lo, j, periodTest)
      invariant achievements == Harvest(lines, lo, j, isItem, itemText)
    {
      var candidate := companyTest(lines[j]);
      if company == "" && candidate != "" {
        company := candidate;
      }
      var dateMatch := periodTest(lines[j]);
      if dateMatch != "" && period == "" {
        period := dateMatch;
      }
      if isItem(lines[j]) {
        achievements := achievements + [itemText(lines[j])];
      }
      j := j + 1;
    }
  }

  /** The description loop over the lines from `lo` up to `hi`: accepted lines, trimmed,
      each followed by a blank, and the whole trimmed at the end. */
  method DescriptionLoop(lines: seq<string>, lo: nat, hi: nat, keep: string -> bool)
    returns (description: string)
    requires lo <= hi <= |lines|
    ensures description == Trim(Accumulate(lines, lo, hi, keep))
  {
    description := "";
    var j := lo;
    while j < hi
      invariant lo <= j <= hi
      invariant description == Accumulate(lines, lo, j, keep)
    {
      if keep(lines[j]) {
        description := description + Trim(lines[j]) + " ";
      }
      j := j + 1;
    }
    description := Trim(description);
  }

  /** The record for the anchor at line `i`. */
  method FillExperience(lines: seq<string>, i: nat) returns (item: ExperienceRecord)
    requires i < |lines|
    ensures item == ExperienceItem(lines, i)
  {
    var line := Trim(lines[i]);
    var position, company := line, "";
    var at := IndexFrom(Lower(line), " at ", 0);
    if at.Some? {
      position := Trim(line[..at.value]);
      company := Trim(line[at.value + 4..]);
    }
    var period, achievements;
    company, period, achievements :=
      LookAheadLoop(lines, i + 1, WindowEnd(lines, i, LookAhead), company,
                    CompanyCandidate, PeriodCandidate, IsAchievementLine, AchievementText);
    var description := "";
    if |achievements| == 0 {
      description := DescriptionLoop(lines, i + 1, WindowEnd(lines, i, DescriptionLines), IsDescriptionLine);
    }
    item := ExperienceRecord(position, company, "", period, description, achievements);
  }

  /** The section-aware loop of `parseExperience`, with the three tests on
      a line (each trims it) as parameters. */
  method ScanSection(lines: seq<string>, heading: string -> bool, exit: string -> bool, anchor: string -> bool)
    returns (records: seq<ExperienceRecord>)
    ensures records == MapAt(SectionAnchors(lines, 0, false, heading, exit, anchor), Builder(lines))
  {
    records := [];
    var inSection := false;
    ghost var anchors: seq<nat> := [];
    var i := 0;
    while i < |lines|
      invariant 0 <= i <= |lines|
      invariant forall k :: 0 <= k < |anchors| ==> anchors[k] < |lines|
      invariant anchors + SectionAnchors(lines, i, inSection, heading, exit, anchor)
                == SectionAnchors(lines, 0, false, heading, exit, anchor)
      invariant records == MapAt(anchors, Builder(lines))
    {
      var line := lines[i];
      SectionStep(lines, i, inSection, anchors, heading, exit, anchor);
      if heading(line) {
        inSection := true;
        i := i + 1;
        continue;
      }
      if inSection && exit(line) {
        inSection := false;
      }
      if inSection && anchor(line) {
        var item := FillExperience(lines, i);
        MapAtSnoc(anchors, i, Builder(lines));
        records := records + [item];
        anchors := anchors + [i];
      }
      i := i + 1;
    }
    assert anchors + [] == anchors;
  }

  /** `parseExperience(text)`. */
  method ParseExperience(text: string) returns (experience: seq<ExperienceRecord>)
    ensures experience == ExperienceOf(text)
  {
    var lines := Lines(text);
    var records := ScanSection(lines, HeadingLine, ExitLine, AnchorLine);
    experience := records[..Min(MaxRecords, |records|)];
  }
}
