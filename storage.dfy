/** How parsed and hand-entered resume content is kept: three tables of rows
    per resume id (server/server.js:116-184), list fields flattened into one
    string on the way in (achievements joined with "| ", skills with ", ")
    and split again on the way out (server/server.js:1137-1169). */
module Storage {
  import opened Wrappers
  import opened Text

  // ------------------------------------------------------------ codecs

  /** Not blank once trimmed: the `filter` tests of the decoders and of the
      hand-entered achievements. */
  predicate NotBlank(s: string) {
    Trim(s) != ""
  }

  /** The item itself: `filter` keeps items, it does not change them. */
  function AsIs(s: string): string {
    s
  }

  /** `xs.join(d + ' ')`. */
  function Encode(xs: seq<string>, d: char): string {
    Join(xs, [d, ' '])
  }

  /** The decoding of a stored list field: nothing for an empty value; the
      pieces between the `d`s, trimmed, blank ones dropped, when the value
      holds a `d`; otherwise the whole value as the only item. */
  function Decode(s: string, d: char): seq<string> {
    if s == "" then []
    else if d in s then
      var pieces := Split(s, d);
      Harvest(pieces, 0, |pieces|, NotBlank, Trim)
    else [s]
  }

  /** A decoded value holding a delimiter gives non-empty, trimmed items
      free of it, one per non-blank piece; a value without one gives itself,
      or nothing when it is empty. */
  lemma DecodedItems(s: string, d: char)
    ensures d in s ==> forall y :: y in Decode(s, d) ==> y != "" && IsTrimmed(y) && d !in y
    ensures d !in s ==> Decode(s, d) == (if s == "" then [] else [s])
  {
    if d in s {
      var pieces := Split(s, d);
      HarvestFrom(pieces, 0, |pieces|, NotBlank, Trim);
      SplitPiecesFree(s, d);
      forall y | y in Decode(s, d) ensures y != "" && IsTrimmed(y) && d !in y {
        var k :| 0 <= k < |pieces| && NotBlank(pieces[k]) && y == Trim(pieces[k]);
        TrimIsTrimmed(pieces[k]);
        TrimStartSuffix(pieces[k]);
        TrimEndPrefix(TrimStart(pieces[k]));
        assert forall c :: c in y ==> c in pieces[k];
      }
    }
  }

  /** Achievements: `exp.achievements.split('|')` (server/server.js:1141-1146). */
  function DecodeAchievements(s: string): seq<string> {
    Decode(s, '|')
  }

  /** Skills: `skill.skills.split(',')` (server/server.js:1157-1162). */
  function DecodeSkills(s: string): seq<string> {
    Decode(s, ',')
  }

  /** Items that are not blank, already trimmed and free of the delimiter. */
  predicate Storable(xs: seq<string>, d: char) {
    forall k :: 0 <= k < |xs| ==> xs[k] != "" && IsTrimmed(xs[k]) && d !in xs[k]
  }

  /** Pieces that trim to non-empty items are all kept, trimmed. */
  lemma {:induction false} HarvestTrimsAll(pieces: seq<string>, xs: seq<string>, hi: nat)
    requires |pieces| == |xs| && hi <= |xs|
    requires forall k :: 0 <= k < |xs| ==> xs[k] != "" && Trim(pieces[k]) == xs[k]
    ensures Harvest(pieces, 0, hi, NotBlank, Trim) == xs[..hi]
    decreases hi
  {
    if hi > 0 {
      HarvestTrimsAll(pieces, xs, hi - 1);
      assert xs[..hi] == xs[..hi - 1] + [xs[hi - 1]];
    }
  }

  /** The pieces of an encoded list of two or more items trim to the items. */
  lemma EncodedPieces(xs: seq<string>, d: char)
    requires |xs| > 1 && d != ' ' && Storable(xs, d)
    ensures var pieces := Split(Encode(xs, d), d);
            |pieces| == |xs| && forall k :: 0 <= k < |xs| ==> Trim(pieces[k]) == xs[k]
  {
    assert [d] + " " == [d, ' '];
    SplitJoin(xs, d, " ");
    var pieces := Split(Encode(xs, d), d);
    forall k | 0 <= k < |xs| ensures Trim(pieces[k]) == xs[k] {
      if k == 0 {
        TrimTrimmed(xs[0]);
      } else {
        assert pieces[k] == [' '] + xs[k];
        TrimAfterBlank(xs[k]);
      }
    }
  }

  /** Decoding an encoded list gives it back when its items are storable. */
  lemma RoundTrip(xs: seq<string>, d: char)
    requires d != ' ' && Storable(xs, d)
    ensures Decode(Encode(xs, d), d) == xs
  {
    var s := Encode(xs, d);
    if |xs| == 1 {
      assert s == xs[0];
    } else if |xs| > 1 {
      assert s == xs[0] + [d] + (" " + Join(xs[1..], [d, ' ']));
      assert s[|xs[0]|] == d;
      EncodedPieces(xs, d);
      HarvestTrimsAll(Split(s, d), xs, |xs|);
      assert xs[..|xs|] == xs;
    }
  }

  /** The hand-entered achievements: the non-blank lines of the text area,
      kept as typed (server/server.js:342-344). */
  function ManualAchievements(input: string): seq<string> {
    if input == "" then []
    else
      var lines := Split(input, '\n');
      Harvest(lines, 0, |lines|, NotBlank, AsIs)
  }

  /** The stored achievements are the non-blank lines, in order, none of
      them holding a line break. */
  lemma ManualLines(input: string)
    ensures forall y :: y in ManualAchievements(input) ==> NotBlank(y) && '\n' !in y
    ensures input != "" && ManualAchievements(input) == [] ==>
              forall k :: 0 <= k < |Split(input, '\n')| ==> !NotBlank(Split(input, '\n')[k])
    ensures input != "" && (forall k :: 0 <= k < |Split(input, '\n')| ==> !NotBlank(Split(input, '\n')[k])) ==>
              ManualAchievements(input) == []
  {
    if input != "" {
      var lines := Split(input, '\n');
      HarvestFrom(lines, 0, |lines|, NotBlank, AsIs);
      SplitPiecesFree(input, '\n');
      forall y | y in ManualAchievements(input) ensures NotBlank(y) && '\n' !in y {
        var k :| 0 <= k < |lines| && NotBlank(lines[k]) && y == AsIs(lines[k]);
      }
    }
  }

  /** Hand-entered achievements come back from storage unchanged when each
      line is typed without surrounding blanks and without a "|". */
  lemma ManualRoundTrip(input: string)
    requires forall y :: y in ManualAchievements(input) ==> IsTrimmed(y) && '|' !in y
    ensures DecodeAchievements(Encode(ManualAchievements(input), '|')) == ManualAchievements(input)
  {
    var xs := ManualAchievements(input);
    ManualLines(input);
    forall k | 0 <= k < |xs| ensures xs[k] != "" && IsTrimmed(xs[k]) && '|' !in xs[k] {
      assert xs[k] in xs;
      TrimTrimmed(xs[k]);
    }
    RoundTrip(xs, '|');
  }

  // ------------------------------------------------------------- rows

  /** A `resume_education` row; a column the insert leaves NULL is "". */
  datatype EducationRow = EducationRow(
    degree: string, institution: string, location: string,
    period: string, description: string, gpa: string)

  /** A `resume_experience` row; `achievements` is the encoded list. */
  datatype ExperienceRow = ExperienceRow(
    position: string, company: string, location: string,
    period: string, description: string, achievements: string)

  /** A `resume_skills` row; `skills` is the encoded list. */
  datatype SkillRow = SkillRow(category: string, skills: string)

  /** The rows of one resume in the three tables, in insertion order. */
  datatype ResumeRows = ResumeRows(education: seq<EducationRow>, experience: seq<ExperienceRow>, skills: seq<SkillRow>)

  const NoRows := ResumeRows([], [], [])

  function RowsOf(rows: map<nat, ResumeRows>, id: nat): ResumeRows {
    if id in rows then rows[id] else NoRows
  }

  /** One `INSERT` statement. */
  datatype Insert = EduInsert(edu: EducationRow) | ExpInsert(exp: ExperienceRow) | SkillInsert(skill: SkillRow)

  /** The rows after one insert: the row goes last in its table. */
  function Applied(r: ResumeRows, ins: Insert): ResumeRows {
    match ins
    case EduInsert(e) => r.(education := r.education + [e])
    case ExpInsert(x) => r.(experience := r.experience + [x])
    case SkillInsert(k) => r.(skills := r.skills + [k])
  }

  /** The rows after a run of inserts, in order. */
  function ApplyAll(r: ResumeRows, inserts: seq<Insert>): ResumeRows
    decreases |inserts|
  {
    if inserts == [] then r
    else Applied(ApplyAll(r, inserts[..|inserts| - 1]), inserts[|inserts| - 1])
  }

  function EduInserts(rows: seq<EducationRow>): seq<Insert> {
    seq(|rows|, k requires 0 <= k < |rows| => EduInsert(rows[k]))
  }

  function ExpInserts(rows: seq<ExperienceRow>): seq<Insert> {
    seq(|rows|, k requires 0 <= k < |rows| => ExpInsert(rows[k]))
  }

  function SkillInserts(rows: seq<SkillRow>): seq<Insert> {
    seq(|rows|, k requires 0 <= k < |rows| => SkillInsert(rows[k]))
  }

  /** Inserting education rows appends them to the table, in order, and leaves the other tables alone. */
  lemma {:induction false} ApplyEducation(r: ResumeRows, es: seq<EducationRow>)
    ensures ApplyAll(r, EduInserts(es)) == r.(education := r.education + es)
    decreases |es|
  {
    if es != [] {
      var init := es[..|es| - 1];
      assert EduInserts(es)[..|es| - 1] == EduInserts(init);
      ApplyEducation(r, init);
      assert r.education + init + [es[|es| - 1]] == r.education + es;
    }
  }

  /** Inserting experience rows appends them to the table, in order, and leaves the other tables alone. */
  lemma {:induction false} ApplyExperience(r: ResumeRows, xs: seq<ExperienceRow>)
    ensures ApplyAll(r, ExpInserts(xs)) == r.(experience := r.experience + xs)
    decreases |xs|
  {
    if xs != [] {
      var init := xs[..|xs| - 1];
      assert ExpInserts(xs)[..|xs| - 1] == ExpInserts(init);
      ApplyExperience(r, init);
      assert r.experience + init + [xs[|xs| - 1]] == r.experience + xs;
    }
  }

  /** Inserting skill rows appends them to the table, in order, and leaves the other tables alone. */
  lemma {:induction false} ApplySkills(r: ResumeRows, ks: seq<SkillRow>)
    ensures ApplyAll(r, SkillInserts(ks)) == r.(skills := r.skills + ks)
    decreases |ks|
  {
    if ks != [] {
      var init := ks[..|ks| - 1];
      assert SkillInserts(ks)[..|ks| - 1] == SkillInserts(init);
      ApplySkills(r, init);
      assert r.skills + init + [ks[|ks| - 1]] == r.skills + ks;
    }
  }

  /** Running two batches of inserts is running the first, then the second. */
  lemma {:induction false} ApplyAllAppend(r: ResumeRows, a: seq<Insert>, b: seq<Insert>)
    ensures ApplyAll(r, a + b) == ApplyAll(ApplyAll(r, a), b)
    decreases |b|
  {
    if b == [] {
      assert a + b == a;
    } else {
      assert (a + b)[..|a + b| - 1] == a + b[..|b| - 1];
      assert (a + b)[|a + b| - 1] == b[|b| - 1];
      ApplyAllAppend(r, a, b[..|b| - 1]);
    }
  }

  /** The education, experience and skill inserts, run in that order, add
      exactly those rows to each table. */
  lemma StoredInOrder(r: ResumeRows, es: seq<EducationRow>, xs: seq<ExperienceRow>, ks: seq<SkillRow>)
    ensures ApplyAll(r, EduInserts(es) + ExpInserts(xs) + SkillInserts(ks))
            == ResumeRows(r.education + es, r.experience + xs, r.skills + ks)
  {
    ApplyAllAppend(r, EduInserts(es) + ExpInserts(xs), SkillInserts(ks));
    ApplyAllAppend(r, EduInserts(es), ExpInserts(xs));
    ApplyEducation(r, es);
    var r1 := r.(education := r.education + es);
    ApplyExperience(r1, xs);
    ApplySkills(r1.(experience := r1.experience + xs), ks);
  }

  /** The three content tables, keyed by resume id. */
  class ResumeStore {
    var rows: map<nat, ResumeRows>

    constructor()
      ensures rows == map[]
    {
      rows := map[];
    }

    /** The three `DELETE … WHERE resume_id = ?` statements. */
    method Clear(id: nat)
      modifies this
      ensures rows == old(rows)[id := NoRows]
    {
      rows := rows[id := NoRows];
    }

    method InsertEducation(id: nat, row: EducationRow)
      modifies this
      ensures rows == old(rows)[id := RowsOf(old(rows), id).(education := RowsOf(old(rows), id).education + [row])]
    {
      var r := RowsOf(rows, id);
      rows := rows[id := r.(education := r.education + [row])];
    }

    method InsertExperience(id: nat, row: ExperienceRow)
      modifies this
      ensures rows == old(rows)[id := RowsOf(old(rows), id).(experience := RowsOf(old(rows), id).experience + [row])]
    {
      var r := RowsOf(rows, id);
      rows := rows[id := r.(experience := r.experience + [row])];
    }

    method InsertSkill(id: nat, row: SkillRow)
      modifies this
      ensures rows == old(rows)[id := RowsOf(old(rows), id).(skills := RowsOf(old(rows), id).skills + [row])]
    {
      var r := RowsOf(rows, id);
      rows := rows[id := r.(skills := r.skills + [row])];
    }

    /** One insert statement against resume `id`. */
    method Execute(id: nat, ins: Insert)
      modifies this
      ensures rows == old(rows)[id := Applied(RowsOf(old(rows), id), ins)]
    {
      match ins
      case EduInsert(e) => InsertEducation(id, e);
      case ExpInsert(x) => InsertExperience(id, x);
      case SkillInsert(k) => InsertSkill(id, k);
    }

    /** The insert loops of a parse, one statement at a time; the statement
        numbered `failAt`, if there is one, throws, and the statements
        before it have taken effect. */
    method ExecuteAll(id: nat, inserts: seq<Insert>, failAt: Option<nat>) returns (done: nat)
      modifies this
      ensures done == (if failAt.Some? && failAt.value < |inserts| then failAt.value else |inserts|)
      ensures RowsOf(rows, id) == ApplyAll(RowsOf(old(rows), id), inserts[..done])
      ensures forall other :: other != id ==> RowsOf(rows, other) == RowsOf(old(rows), other)
    {
      done := 0;
      while done < |inserts|
        invariant done <= |inserts|
        invariant failAt.Some? ==> done <= failAt.value
        invariant RowsOf(rows, id) == ApplyAll(RowsOf(old(rows), id), inserts[..done])
        invariant forall other :: other != id ==> RowsOf(rows, other) == RowsOf(old(rows), other)
      {
        if failAt == Some(done) {
          return;
        }
        assert inserts[..done + 1][..done] == inserts[..done];
        Execute(id, inserts[done]);
        done := done + 1;
      }
    }

    /** `POST /api/admin/resume/education` without an id (server/server.js:265-291):
        refused when there is no resume or a required field is missing,
        otherwise one row is added to the current resume. */
    method AddEducation(current: Option<nat>, degree: string, institution: string, location: string,
                        period: string, description: string, gpa: string) returns (result: Option<string>)
      modifies this
      ensures current.None? ==> result == Some("No resume found. Please upload a resume first.") && rows == old(rows)
      ensures current.Some? && (degree == "" || institution == "" || period == "") ==>
                result == Some("Degree, institution, and period are required") && rows == old(rows)
      ensures current.Some? && degree != "" && institution != "" && period != "" ==>
                result.None? && rows == old(rows)[current.value := RowsOf(old(rows), current.value).(
                  education := RowsOf(old(rows), current.value).education
                               + [EducationRow(degree, institution, location, period, description, gpa)])]
    {
      if current.None? {
        return Some("No resume found. Please upload a resume first.");
      }
      if degree == "" || institution == "" || period == "" {
        return Some("Degree, institution, and period are required");
      }
      InsertEducation(current.value, EducationRow(degree, institution, location, period, description, gpa));
      result := None;
    }

    /** `POST /api/admin/resume/experience` without an id (server/server.js:328-360):
        the same checks, and the typed achievements are stored one per
        non-blank line, joined with "| ". */
    method AddExperience(current: Option<nat>, position: string, company: string, location: string,
                         period: string, description: string, achievements: string) returns (result: Option<string>)
      modifies this
      ensures current.None? ==> result == Some("No resume found. Please upload a resume first.") && rows == old(rows)
      ensures current.Some? && (position == "" || company == "" || period == "") ==>
                result == Some("Position, company, and period are required") && rows == old(rows)
      ensures current.Some? && position != "" && company != "" && period != "" ==>
                result.None? && rows == old(rows)[current.value := RowsOf(old(rows), current.value).(
                  experience := RowsOf(old(rows), current.value).experience
                                + [ExperienceRow(position, company, location, period, description,
                                                 Encode(ManualAchievements(achievements), '|'))])]
    {
      if current.None? {
        return Some("No resume found. Please upload a resume first.");
      }
      if position == "" || company == "" || period == "" {
        return Some("Position, company, and period are required");
      }
      var achievementsString := Encode(ManualAchievements(achievements), '|');
      InsertExperience(current.value, ExperienceRow(position, company, location, period, description, achievementsString));
      result := None;
    }
  }
}
