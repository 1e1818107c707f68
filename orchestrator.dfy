/** The fallback chain of a resume upload (server/server.js:399-609). The
    text pdf-parse extracted is an input (`Some("")` when reading or parsing
    the PDF threw, since `text` starts empty; `None` when pdf-parse returned
    no text field), and a storage fault is the
    number of the insert statement that throws, if any.
    - Full parsing: every extractor runs, the resume's rows are cleared and
      the parsed records inserted.
    - When anything in full parsing throws, the text decides: a non-empty
      text (even one of blanks only) goes to basic parsing, which inserts
      without clearing; an empty one gives the fixed sample data. */
module Orchestrator {
  import opened Wrappers
  import opened Text
  import opened Storage
  import opened Education
  import opened Experience
  import opened Skills
  import opened Personal

  /** What a parse returns; `personalInfo` is set by full parsing only. */
  datatype ParsedResume = ParsedResume(
    education: seq<EducationRecord>, experience: seq<ExperienceRecord>,
    skills: seq<SkillCategory>, personalInfo: Option<PersonalInfo>)

  // ------------------------------------------------------- full parsing

  function EducationRowOf(e: EducationRecord): EducationRow {
    EducationRow(e.degree, e.institution, e.location, e.period, e.description, e.gpa)
  }

  function ExperienceRowOf(x: ExperienceRecord): ExperienceRow {
    ExperienceRow(x.position, x.company, x.location, x.period, x.description, Encode(x.achievements, '|'))
  }

  /** `skillCat.category || 'Other'`. */
  function SkillRowOf(c: SkillCategory): SkillRow {
    SkillRow(if c.category == "" then "Other" else c.category, Encode(c.skills, ','))
  }

  function EducationRows(es: seq<EducationRecord>): seq<EducationRow> {
    seq(|es|, k requires 0 <= k < |es| => EducationRowOf(es[k]))
  }

  function ExperienceRows(xs: seq<ExperienceRecord>): seq<ExperienceRow> {
    seq(|xs|, k requires 0 <= k < |xs| => ExperienceRowOf(xs[k]))
  }

  function SkillRows(cs: seq<SkillCategory>): seq<SkillRow> {
    seq(|cs|, k requires 0 <= k < |cs| => SkillRowOf(cs[k]))
  }

  /** The result of full parsing. */
  function FullResult(text: string): ParsedResume {
    ParsedResume(EducationOf(text), ExperienceOf(text), SkillsOf(text, CategoryNames, Vocabularies),
                 Some(PersonalInfoOf(text)))
  }

  /** The insert statements storing a parse, in the order the three loops
      of full parsing run them. */
  function InsertsOf(r: ParsedResume): seq<Insert> {
    EduInserts(EducationRows(r.education)) + ExpInserts(ExperienceRows(r.experience)) + SkillInserts(SkillRows(r.skills))
  }

  /** The insert statements of full parsing. */
  function FullInserts(text: string): seq<Insert> {
    InsertsOf(FullResult(text))
  }

  /** The full parse, extractor by extractor. */
  method ParseAll(text: string) returns (result: ParsedResume)
    ensures result == FullResult(text)
  {
    var education := ParseEducation(text);
    var experience := ParseExperience(text);
    var skills := ParseSkills(text);
    var personalInfo := ParsePersonalInfo(text);
    result := ParsedResume(education, experience, skills, Some(personalInfo));
  }

  /** Storing a parse into emptied tables leaves exactly one row per
      record, in the order parsed, in each table. */
  lemma StoredParse(r: ParsedResume)
    ensures ApplyAll(NoRows, InsertsOf(r))
            == ResumeRows(EducationRows(r.education), ExperienceRows(r.experience), SkillRows(r.skills))
  {
    StoredInOrder(NoRows, EducationRows(r.education), ExperienceRows(r.experience), SkillRows(r.skills));
  }

  /** Reading the stored rows back (server/server.js:1137-1169) gives the
      parsed lists again when their items are storable, and every skills
      row has a category. */
  lemma RowsReadBack(r: ParsedResume)
    ensures forall k :: 0 <= k < |r.experience| && Storable(r.experience[k].achievements, '|') ==>
              DecodeAchievements(ExperienceRows(r.experience)[k].achievements) == r.experience[k].achievements
    ensures forall k :: 0 <= k < |r.skills| && Storable(r.skills[k].skills, ',') ==>
              DecodeSkills(SkillRows(r.skills)[k].skills) == r.skills[k].skills
    ensures forall k :: 0 <= k < |r.skills| ==>
              SkillRows(r.skills)[k].category != ""
              && (r.skills[k].category != "" ==> SkillRows(r.skills)[k].category == r.skills[k].category)
  {
    forall k | 0 <= k < |r.experience| && Storable(r.experience[k].achievements, '|')
      ensures DecodeAchievements(ExperienceRows(r.experience)[k].achievements) == r.experience[k].achievements
    {
      RoundTrip(r.experience[k].achievements, '|');
    }
    forall k | 0 <= k < |r.skills| && Storable(r.skills[k].skills, ',')
      ensures DecodeSkills(SkillRows(r.skills)[k].skills) == r.skills[k].skills
    {
      RoundTrip(r.skills[k].skills, ',');
    }
  }

  /** Skills drawn from storable vocabularies are storable, so they read
      back unchanged. */
  lemma ParsedSkillsStorable(text: string, names: seq<string>, vocabs: seq<seq<string>>)
    requires |names| == |vocabs|
    requires forall c :: 0 <= c < |vocabs| ==> Storable(vocabs[c], ',')
    ensures forall k :: 0 <= k < |SkillsOf(text, names, vocabs)| ==> Storable(SkillsOf(text, names, vocabs)[k].skills, ',')
  {
    var r := SkillsOf(text, names, vocabs);
    if exists c :: 0 <= c < |vocabs| && FoundIn(text, vocabs)[c] != [] {
      ScanResult(text, names, vocabs);
    } else {
      FallbackResult(text, names, vocabs);
    }
    forall k, j | 0 <= k < |r| && 0 <= j < |r[k].skills|
      ensures r[k].skills[j] != "" && IsTrimmed(r[k].skills[j]) && ',' !in r[k].skills[j]
    {
      assert r[k].skills[j] in r[k].skills;
      var d :| 0 <= d < |vocabs| && r[k].skills[j] in vocabs[d];
      var i :| 0 <= i < |vocabs[d]| && vocabs[d][i] == r[k].skills[j];
    }
  }

  // ------------------------------------------------------ basic parsing

  const BasicKeywords: seq<string> := ["university", "college", "institute", "bachelor", "master", "degree", "education"]
  const BasicTechSkills: seq<string> := ["javascript", "python", "java", "react", "node", "html", "css", "sql", "mongodb", "express"]
  const BasicCategory: string := "Technical Skills"

  /** A line that starts a new education entry: a keyword and fewer than 100 characters. */
  predicate IsDegreeLine(line: string) {
    ContainsAny(Lower(line), BasicKeywords) && |line| < 100
  }

  /** A line that mentions a year (case-sensitive, raw line). */
  predicate HasYear(line: string) {
    Contains(line, "20") || Contains(line, "19")
  }

  /** The finished entries and the one being filled. */
  datatype BasicState = BasicState(education: seq<EducationRecord>, current: Option<EducationRecord>)

  /** One line of the basic education loop (server/server.js:561-574), with
      the degree-line and year tests as parameters. */
  function BasicStep(st: BasicState, line: string, degree: string -> bool, year: string -> bool): BasicState {
    if degree(line) then
      var done := if st.current.Some? then st.education + [st.current.value] else st.education;
      BasicState(done, Some(EducationRecord(Trim(line), "", "", "", "", "")))
    else if st.current.Some? then
      var c := st.current.value;
      if c.institution == "" && |line| < 100 then BasicState(st.education, Some(c.(institution := Trim(line))))
      else if c.period == "" && year(line) then BasicState(st.education, Some(c.(period := Trim(line))))
      else st
    else st
  }

  function BasicScan(lines: seq<string>, hi: nat, degree: string -> bool, year: string -> bool): BasicState
    requires hi <= |lines|
    decreases hi
  {
    if hi == 0 then BasicState([], None) else BasicStep(BasicScan(lines, hi - 1, degree, year), lines[hi - 1], degree, year)
  }

  /** The entries with the one being filled pushed last. */
  function Flushed(st: BasicState): seq<EducationRecord> {
    if st.current.Some? then st.education + [st.current.value] else st.education
  }

  /** `text.split('\n').filter(line => line.trim().length > 0)`. */
  function BasicLines(text: string): seq<string> {
    var all := Lines(text);
    Harvest(all, 0, |all|, NotBlank, AsIs)
  }

  function BasicEducation(text: string): seq<EducationRecord> {
    var lines := BasicLines(text);
    Flushed(BasicScan(lines, |lines|, IsDegreeLine, HasYear))
  }

  /** The one "Technical Skills" entry, when any of the ten skills occurs in the text. */
  function BasicSkills(text: string): seq<SkillCategory> {
    var found := MentionedIn(Lower(text), BasicTechSkills, |BasicTechSkills|);
    if found != [] then [SkillCategory(BasicCategory, found)] else []
  }

  function BasicResult(text: string): ParsedResume {
    ParsedResume(BasicEducation(text), [], BasicSkills(text), None)
  }

  /** An education row of basic parsing: only degree, institution and period are set. */
  function BasicRowOf(e: EducationRecord): EducationRow {
    EducationRow(e.degree, e.institution, "", e.period, "", "")
  }

  function BasicRows(es: seq<EducationRecord>): seq<EducationRow> {
    seq(|es|, k requires 0 <= k < |es| => BasicRowOf(es[k]))
  }

  /** The insert statements storing a basic parse: its education rows, then
      at most one skills row. */
  function BasicInsertsOf(r: ParsedResume): seq<Insert> {
    EduInserts(BasicRows(r.education))
    + SkillInserts(if r.skills != [] then [SkillRow(r.skills[0].category, Encode(r.skills[0].skills, ','))] else [])
  }

  /** The insert statements of basic parsing. */
  function BasicInserts(text: string): seq<Insert> {
    BasicInsertsOf(BasicResult(text))
  }

  /** The degrees of some entries. */
  function Degrees(es: seq<EducationRecord>): seq<string> {
    seq(|es|, k requires 0 <= k < |es| => es[k].degree)
  }

  /** Basic parsing makes one entry per degree line, in order, its degree
      the trimmed line. */
  lemma {:induction false} BasicDegrees(lines: seq<string>, hi: nat, degree: string -> bool, year: string -> bool)
    requires hi <= |lines|
    ensures Degrees(Flushed(BasicScan(lines, hi, degree, year))) == Harvest(lines, 0, hi, degree, Trim)
    decreases hi
  {
    if hi > 0 {
      BasicDegrees(lines, hi - 1, degree, year);
      var st := BasicScan(lines, hi - 1, degree, year);
      var line := lines[hi - 1];
      if degree(line) {
        var rec := EducationRecord(Trim(line), "", "", "", "", "");
        assert Flushed(BasicScan(lines, hi, degree, year)) == Flushed(st) + [rec];
        assert Degrees(Flushed(st) + [rec]) == Degrees(Flushed(st)) + [Trim(line)];
      } else if st.current.Some? {
        var next := BasicScan(lines, hi, degree, year);
        assert next.education == st.education && next.current.Some?;
        assert next.current.value.degree == st.current.value.degree;
        assert Degrees(Flushed(next)) == Degrees(Flushed(st));
      }
    }
  }

  /** The basic education loop. */
  method BasicEducationLoop(lines: seq<string>, degree: string -> bool, year: string -> bool)
    returns (education: seq<EducationRecord>)
    ensures education == Flushed(BasicScan(lines, |lines|, degree, year))
  {
    education := [];
    var currentEdu: Option<EducationRecord> := None;
    var i := 0;
    while i < |lines|
      invariant i <= |lines| && BasicState(education, currentEdu) == BasicScan(lines, i, degree, year)
    {
      var line := lines[i];
      if degree(line) {
        if currentEdu.Some? {
          education := education + [currentEdu.value];
        }
        currentEdu := Some(EducationRecord(Trim(line), "", "", "", "", ""));
      } else if currentEdu.Some? {
        var c := currentEdu.value;
        if c.institution == "" && |line| < 100 {
          currentEdu := Some(c.(institution := Trim(line)));
        } else if c.period == "" && year(line) {
          currentEdu := Some(c.(period := Trim(line)));
        }
      }
      i := i + 1;
    }
    if currentEdu.Some? {
      education := education + [currentEdu.value];
    }
  }

  /** `parseResumeBasic` (server/server.js:546-609): rows are added to what
      the resume already has; nothing is cleared. */
  method ParseResumeBasic(store: ResumeStore, id: nat, text: string) returns (result: ParsedResume)
    modifies store
    ensures result == BasicResult(text)
    ensures RowsOf(store.rows, id) == ApplyAll(RowsOf(old(store.rows), id), BasicInserts(text))
    ensures forall other :: other != id ==> RowsOf(store.rows, other) == RowsOf(old(store.rows), other)
  {
    var lines := BasicLines(text);
    var education := BasicEducationLoop(lines, IsDegreeLine, HasYear);
    var skills := BasicSkills(text);
    var inserts := BasicInserts(text);
    var done := store.ExecuteAll(id, inserts, None);
    assert inserts[..done] == inserts;
    result := ParsedResume(education, [], skills, None);
  }

  /** Every line of a text that is blank once trimmed is blank, so basic
      parsing keeps none of them. */
  lemma BlankLines(text: string)
    requires Trim(text) == ""
    ensures BasicLines(text) == []
  {
    var all := Lines(text);
    TrimEmpty(text);
    SplitPiecesWithin(text, '\n');
    forall k | 0 <= k < |all| ensures !NotBlank(all[k]) {
      forall j | 0 <= j < |all[k]| ensures IsSpace(all[k][j]) {
        assert all[k][j] in all[k] && all == Split(text, '\n');
        assert all[k][j] in text;
      }
      TrimEmpty(all[k]);
    }
    HarvestFrom(all, 0, |all|, NotBlank, AsIs);
  }

  /** A word that does not start with white space occurs nowhere in white space. */
  lemma BlankHasNoWord(low: string, w: string)
    requires forall k :: 0 <= k < |low| ==> IsSpace(low[k])
    requires |w| > 0 && !IsSpace(w[0])
    ensures !Contains(low, w)
  {
    forall p: nat ensures !OccursAt(low, w, p) {
      if p + |w| <= |low| {
        assert low[p..p + |w|][0] == low[p];
      }
    }
  }

  /** A text of white space mentions no word that starts with a letter. */
  lemma {:induction false} BlankMentionsNone(low: string, vocab: seq<string>, n: nat)
    requires n <= |vocab|
    requires forall k :: 0 <= k < |low| ==> IsSpace(low[k])
    requires forall k :: 0 <= k < n ==> |vocab[k]| > 0 && !IsSpace(LowerChar(vocab[k][0]))
    ensures MentionedIn(low, vocab, n) == []
    decreases n
  {
    if n > 0 {
      BlankMentionsNone(low, vocab, n - 1);
      BlankHasNoWord(low, Lower(vocab[n - 1]));
    }
  }

  /** An upload whose text is white space only (not empty) fails full
      parsing, and basic parsing then finds no line and no skill: the
      resume's rows stay as they were and the result is empty. */
  lemma BlankUploadKeepsRows(before: ResumeRows, text: string, failAt: Option<nat>)
    requires text != "" && Trim(text) == ""
    ensures ContentRows(before, Some(text), failAt) == before
    ensures ContentResult(Some(text), failAt) == ParsedResume([], [], [], None)
  {
    BlankParse(text);
    assert TierOf(Some(text), failAt) == Basic;
  }

  /** Basic parsing of a white-space text finds nothing to insert. */
  lemma BlankParse(text: string)
    requires Trim(text) == ""
    ensures BasicInserts(text) == [] && BasicResult(text) == ParsedResume([], [], [], None)
  {
    BlankLines(text);
    BlankSkills(text);
    assert BasicEducation(text) == [];
  }

  lemma BlankSkills(text: string)
    requires Trim(text) == ""
    ensures BasicSkills(text) == []
  {
    TrimEmpty(text);
    BlankMentionsNone(Lower(text), BasicTechSkills, |BasicTechSkills|);
  }

  // -------------------------------------------------------- sample data

  /** The record `createSampleResumeData` returns (server/server.js:531-537). */
  const SampleResult: ParsedResume := ParsedResume(
    [EducationRecord("Bachelor of Technology in Computer Science", "Sample University", "", "2020-2024", "", "")],
    [ExperienceRecord("Full Stack Developer", "Tech Company Inc", "", "2023-Present", "", [])],
    [SkillCategory("Programming Languages", ["JavaScript", "Python", "Java"]),
     SkillCategory("Web Technologies", ["React", "Node.js", "Express", "MongoDB"])],
    None)

  /** The rows it inserts (server/server.js:508-527). */
  const SampleEducationRows: seq<EducationRow> :=
    [EducationRow("Bachelor of Technology in Computer Science", "Sample University", "", "2020-2024",
                  "Graduated with honors in Computer Science and Engineering", "")]
  const SampleExperienceRows: seq<ExperienceRow> :=
    [ExperienceRow("Full Stack Developer", "Tech Company Inc", "", "2023-Present",
                   "Developed web applications using modern technologies", "")]
  const SampleSkillRows: seq<SkillRow> :=
    [SkillRow("Programming Languages", "JavaScript, Python, Java"),
     SkillRow("Web Technologies", "React, Node.js, Express, MongoDB")]

  function SampleInserts(): seq<Insert> {
    EduInserts(SampleEducationRows) + ExpInserts(SampleExperienceRows) + SkillInserts(SampleSkillRows)
  }

  /** `createSampleResumeData`: clear the resume's rows, insert the sample rows. */
  method CreateSampleResumeData(store: ResumeStore, id: nat) returns (result: ParsedResume)
    modifies store
    ensures result == SampleResult
    ensures RowsOf(store.rows, id) == ApplyAll(NoRows, SampleInserts())
    ensures forall other :: other != id ==> RowsOf(store.rows, other) == RowsOf(old(store.rows), other)
  {
    store.Clear(id);
    var inserts := SampleInserts();
    var done := store.ExecuteAll(id, inserts, None);
    assert inserts[..done] == inserts;
    result := SampleResult;
  }

  // --------------------------------------------------- the tier choice

  datatype Tier = Full | Basic | Sample

  /** Which parse produces the result. Full parsing throws on a text that
      is empty once trimmed (server/server.js:414-416) or on a failing
      insert; the catch then tests the truthiness of the raw text
      (server/server.js:487-494). */
  function TierOf(extracted: Option<string>, failAt: Option<nat>): Tier {
    var text := if extracted.Some? then extracted.value else "";
    if extracted.Some? && Trim(text) != "" && Completed(|FullInserts(text)|, failAt) == |FullInserts(text)| then Full
    else if text != "" then Basic
    else Sample
  }

  /** The result of `parseResumeContent`. */
  function ContentResult(extracted: Option<string>, failAt: Option<nat>): ParsedResume {
    var text := if extracted.Some? then extracted.value else "";
    match TierOf(extracted, failAt)
    case Full => FullResult(text)
    case Basic => BasicResult(text)
    case Sample => SampleResult
  }

  /** The resume's rows afterwards, given its rows `before`. */
  function ContentRows(before: ResumeRows, extracted: Option<string>, failAt: Option<nat>): ResumeRows {
    var text := if extracted.Some? then extracted.value else "";
    match TierOf(extracted, failAt)
    case Full => ApplyAll(NoRows, FullInserts(text))
    case Basic =>
      if Trim(text) == "" then ApplyAll(before, BasicInserts(text))
      else ApplyAll(ApplyAll(NoRows, FullInserts(text)[..Completed(|FullInserts(text)|, failAt)]), BasicInserts(text))
    case Sample => ApplyAll(NoRows, SampleInserts())
  }

  /** How many of `n` inserts complete when insert `failAt` throws. */
  function Completed(n: nat, failAt: Option<nat>): (done: nat)
    ensures done <= n
    ensures done == n <==> !(failAt.Some? && failAt.value < n)
  {
    if failAt.Some? && failAt.value < n then failAt.value else n
  }

  /** Clear the resume's rows, then store a parse until an insert throws. */
  method StoreParsed(store: ResumeStore, id: nat, r: ParsedResume, failAt: Option<nat>) returns (done: nat)
    modifies store
    ensures done == Completed(|InsertsOf(r)|, failAt)
    ensures RowsOf(store.rows, id) == ApplyAll(NoRows, InsertsOf(r)[..done])
    ensures forall other :: other != id ==> RowsOf(store.rows, other) == RowsOf(old(store.rows), other)
  {
    store.Clear(id);
    done := store.ExecuteAll(id, InsertsOf(r), failAt);
  }

  /** Store a parse; when an insert throws, run basic parsing on the text
      behind the rows already stored (server/server.js:440-494). */
  method StoreOrFallback(store: ResumeStore, id: nat, text: string, r: ParsedResume, failAt: Option<nat>)
    returns (done: nat, result: ParsedResume)
    modifies store
    ensures done == Completed(|InsertsOf(r)|, failAt)
    ensures done == |InsertsOf(r)| ==> result == r && RowsOf(store.rows, id) == ApplyAll(NoRows, InsertsOf(r))
    ensures done < |InsertsOf(r)| ==>
              result == BasicResult(text)
              && RowsOf(store.rows, id) == ApplyAll(ApplyAll(NoRows, InsertsOf(r)[..done]), BasicInserts(text))
    ensures forall other :: other != id ==> RowsOf(store.rows, other) == RowsOf(old(store.rows), other)
  {
    done := StoreParsed(store, id, r, failAt);
    if done == |InsertsOf(r)| {
      assert InsertsOf(r)[..done] == InsertsOf(r);
      result := r;
      return;
    }
    result := ParseResumeBasic(store, id, text);
  }

  /** The `try` of `parseResumeContent` on a text that is not blank: full
      parsing, and basic parsing behind the partial rows when an insert
      throws (server/server.js:408-486). */
  method ParseNonBlank(store: ResumeStore, id: nat, text: string, failAt: Option<nat>)
    returns (result: ParsedResume)
    requires Trim(text) != ""
    modifies store
    ensures result == ContentResult(Some(text), failAt)
    ensures RowsOf(store.rows, id) == ContentRows(RowsOf(old(store.rows), id), Some(text), failAt)
    ensures forall other :: other != id ==> RowsOf(store.rows, other) == RowsOf(old(store.rows), other)
  {
    var r := ParseAll(text);
    var done;
    done, result := StoreOrFallback(store, id, text, r, failAt);
    NonBlankOutcome(RowsOf(old(store.rows), id), text, failAt);
  }

  /** On a text that is not blank the outcome is the full parse, or basic
      parsing behind the rows stored before the failing insert. */
  lemma NonBlankOutcome(before: ResumeRows, text: string, failAt: Option<nat>)
    requires Trim(text) != ""
    ensures var ins := FullInserts(text);
            var done := Completed(|ins|, failAt);
            ContentResult(Some(text), failAt) == (if done == |ins| then FullResult(text) else BasicResult(text))
            && ContentRows(before, Some(text), failAt)
               == if done == |ins| then ApplyAll(NoRows, ins) else ApplyAll(ApplyAll(NoRows, ins[..done]), BasicInserts(text))
  {
    assert text != "";
  }

  /** The `catch` of `parseResumeContent` for a text that is missing or
      blank: basic parsing when the raw text is truthy, the sample resume
      otherwise (server/server.js:487-494). */
  method ParseBlank(store: ResumeStore, id: nat, extracted: Option<string>, failAt: Option<nat>)
    returns (result: ParsedResume)
    requires extracted.None? || Trim(extracted.value) == ""
    modifies store
    ensures result == ContentResult(extracted, failAt)
    ensures RowsOf(store.rows, id) == ContentRows(RowsOf(old(store.rows), id), extracted, failAt)
    ensures forall other :: other != id ==> RowsOf(store.rows, other) == RowsOf(old(store.rows), other)
  {
    var text := "";
    if extracted.Some? {
      text := extracted.value;
    }
    if text != "" {
      assert TierOf(extracted, failAt) == Basic;
      result := ParseResumeBasic(store, id, text);
    } else {
      assert TierOf(extracted, failAt) == Sample;
      result := CreateSampleResumeData(store, id);
    }
  }

  /** `parseResumeContent` (server/server.js:399-496). */
  method ParseResumeContent(store: ResumeStore, id: nat, extracted: Option<string>, failAt: Option<nat>)
    returns (result: ParsedResume)
    modifies store
    ensures result == ContentResult(extracted, failAt)
    ensures RowsOf(store.rows, id) == ContentRows(RowsOf(old(store.rows), id), extracted, failAt)
    ensures forall other :: other != id ==> RowsOf(store.rows, other) == RowsOf(old(store.rows), other)
  {
    if extracted.Some? && Trim(extracted.value) != "" {
      result := ParseNonBlank(store, id, extracted.value, failAt);
    } else {
      result := ParseBlank(store, id, extracted, failAt);
    }
  }

  // ----------------------------------------------------------- outcomes

  /** Basic parsing appends its rows behind whatever the tables hold:
      education rows first, then at most one skills row, holding the first
      skills entry; experience is left alone. */
  lemma BasicStored(before: ResumeRows, r: ParsedResume)
    ensures var rows := ApplyAll(before, BasicInsertsOf(r));
            rows.education == before.education + BasicRows(r.education)
            && rows.experience == before.experience
            && |before.skills| <= |rows.skills| && rows.skills[..|before.skills|] == before.skills
            && (r.skills == [] ==> rows.skills == before.skills)
            && (r.skills != [] ==> rows.skills == before.skills + [SkillRow(r.skills[0].category, Encode(r.skills[0].skills, ','))])
  {
    var ks := if r.skills != [] then [SkillRow(r.skills[0].category, Encode(r.skills[0].skills, ','))] else [];
    var es := BasicRows(r.education);
    StoredInOrder(before, es, [], ks);
    assert ExpInserts([]) == [];
    assert EduInserts(es) + ExpInserts([]) + SkillInserts(ks) == BasicInsertsOf(r);
    var rows := ApplyAll(before, BasicInsertsOf(r));
    assert rows == ResumeRows(before.education + es, before.experience + [], before.skills + ks);
  }

  /** A successful full parse replaces the resume's rows by exactly the
      parsed records, whatever the tables held before. */
  lemma FullUploadStoresParse(before: ResumeRows, text: string, failAt: Option<nat>)
    requires TierOf(Some(text), failAt) == Full
    ensures ContentResult(Some(text), failAt) == FullResult(text)
    ensures var r := FullResult(text);
            ContentRows(before, Some(text), failAt)
            == ResumeRows(EducationRows(r.education), ExperienceRows(r.experience), SkillRows(r.skills))
  {
    StoredParse(FullResult(text));
  }

  /** With no text, or an empty one, the resume gets the sample rows, and
      the result is the sample record. */
  lemma EmptyUploadGivesSample(before: ResumeRows, extracted: Option<string>, failAt: Option<nat>)
    requires extracted == None || extracted == Some("")
    ensures ContentResult(extracted, failAt) == SampleResult
    ensures ContentRows(before, extracted, failAt) == ResumeRows(SampleEducationRows, SampleExperienceRows, SampleSkillRows)
  {
    assert TierOf(extracted, failAt) == Sample;
    StoredInOrder(NoRows, SampleEducationRows, SampleExperienceRows, SampleSkillRows);
  }
}
