/** The project editor of the admin panel
    (client/src/components/admin/ProjectsManagement.jsx): reading a stored
    technology list, the form limits, the technology tags and the URL
    truncation done before a project is sent to the server. The same
    `parseTechnologies` is repeated in client/src/components/Portfolio.jsx. */
module Projects {
  import opened Wrappers
  import opened Text

  // ------------------------------------------------------- technologies

  /** A stored `technologies` value: missing (null, undefined or ""), an
      array, or a text. */
  datatype TechValue = Missing | TechArray(items: seq<string>) | TechText(text: string)

  /** What `JSON.parse` makes of a text: a syntax error, an array, or some
      other JSON value. */
  datatype JsonOutcome = NotJson | JsonArray(items: seq<string>) | OtherJson

  /** The trimmed pieces, in order, with the blank ones dropped. */
  function KeepTrimmed(ps: seq<string>): (r: seq<string>)
    ensures |r| <= |ps|
    ensures forall k :: 0 <= k < |r| ==> r[k] != "" && IsTrimmed(r[k])
    decreases |ps|
  {
    if ps == [] then []
    else
      TrimIsTrimmed(ps[0]);
      (if Trim(ps[0]) != "" then [Trim(ps[0])] else []) + KeepTrimmed(ps[1..])
  }

  /** `text.split(',').map(t => t.trim()).filter(t => t.length > 0)`. */
  function TechPieces(text: string): seq<string> {
    KeepTrimmed(Split(text, ','))
  }

  /** `parseTechnologies` (client/src/components/admin/ProjectsManagement.jsx:39-52,
      client/src/components/Portfolio.jsx:254-267); `json` is what
      `JSON.parse` gives for the text. */
  function ParseTechnologies(v: TechValue, json: JsonOutcome): (r: seq<string>)
    ensures v.TechText? && json.NotJson? ==> forall k :: 0 <= k < |r| ==> r[k] != "" && IsTrimmed(r[k])
    ensures v.TechText? && json.NotJson? ==> |r| <= |Split(v.text, ',')|
  {
    match v
    case Missing => []
    case TechArray(items) => items
    case TechText(text) =>
      if text == "" then []
      else
        match json
        case JsonArray(items) => items
        case OtherJson => []
        case NotJson => TechPieces(text)
  }

  /** Pieces whose trimmed forms are the given non-blank words keep exactly those words. */
  lemma {:induction false} KeepAll(ps: seq<string>, xs: seq<string>)
    requires |ps| == |xs|
    requires forall k :: 0 <= k < |ps| ==> Trim(ps[k]) == xs[k] && xs[k] != ""
    ensures KeepTrimmed(ps) == xs
    decreases |ps|
  {
    if ps != [] {
      KeepAll(ps[1..], xs[1..]);
      assert [xs[0]] + xs[1..] == xs;
    }
  }

  /** A word is kept exactly when some piece trims to it. */
  lemma {:induction false} KeepTrimmedMembers(ps: seq<string>, x: string)
    ensures x in KeepTrimmed(ps) <==> x != "" && exists k :: 0 <= k < |ps| && Trim(ps[k]) == x
    decreases |ps|
  {
    if ps != [] {
      KeepTrimmedMembers(ps[1..], x);
      if exists k :: 0 <= k < |ps[1..]| && Trim(ps[1..][k]) == x {
        var k :| 0 <= k < |ps[1..]| && Trim(ps[1..][k]) == x;
        assert Trim(ps[k + 1]) == x;
      }
      if exists k :: 0 <= k < |ps| && Trim(ps[k]) == x {
        var k :| 0 <= k < |ps| && Trim(ps[k]) == x;
        if k > 0 {
          assert Trim(ps[1..][k - 1]) == x;
        }
      }
    }
  }

  /** The comma-split pieces of "a, b, c" trim to the words. */
  lemma JoinedPieces(xs: seq<string>)
    requires xs != []
    requires forall k :: 0 <= k < |xs| ==> xs[k] != "" && IsTrimmed(xs[k]) && ',' !in xs[k]
    ensures |Split(Join(xs, ", "), ',')| == |xs|
    ensures forall k :: 0 <= k < |xs| ==> Trim(Split(Join(xs, ", "), ',')[k]) == xs[k]
  {
    assert [','] + " " == ", ";
    SplitJoinAt(xs, ',', " ", 0);
    forall k | 0 <= k < |xs|
      ensures Trim(Split(Join(xs, [','] + " "), ',')[k]) == xs[k]
    {
      SplitJoinAt(xs, ',', " ", k);
      if k == 0 {
        TrimTrimmed(xs[0]);
      } else {
        TrimAfterBlank(xs[k]);
      }
    }
  }

  /** A join of non-empty words is not empty. */
  lemma JoinNotEmpty(xs: seq<string>, sep: string)
    requires xs != [] && xs[0] != ""
    ensures Join(xs, sep) != ""
  {
    if |xs| > 1 {
      assert Join(xs, sep) == xs[0] + sep + Join(xs[1..], sep);
    }
  }

  /** A list of non-blank, trimmed, comma-free words written out as
      "a, b, c" reads back as the same list when `JSON.parse` rejects that
      text. Some such texts are JSON ("42", "null", "[1, 2]"), and those
      take the JSON branch instead. */
  lemma TechRoundTrip(xs: seq<string>)
    requires xs != []
    requires forall k :: 0 <= k < |xs| ==> xs[k] != "" && IsTrimmed(xs[k]) && ',' !in xs[k]
    ensures ParseTechnologies(TechText(Join(xs, ", ")), NotJson) == xs
  {
    JoinedPieces(xs);
    KeepAll(Split(Join(xs, ", "), ','), xs);
    JoinNotEmpty(xs, ", ");
  }

  // ---------------------------------------------------------- tag list

  /** `handleAddTech` on the list: the trimmed input is appended when it is
      non-blank and not already there. */
  function AddTech(xs: seq<string>, input: string): seq<string> {
    var t := Trim(input);
    if t != "" && t !in xs then xs + [t] else xs
  }

  /** `handleRemoveTech` on the list: `filter(tech => tech !== techToRemove)`. */
  function RemoveTech(xs: seq<string>, x: string): (r: seq<string>)
    ensures |r| <= |xs|
    ensures x !in r
    ensures forall y :: y != x ==> (y in r <==> y in xs)
    decreases |xs|
  {
    if xs == [] then []
    else (if xs[0] != x then [xs[0]] else []) + RemoveTech(xs[1..], x)
  }

  /** Adding keeps the list, in order, as a prefix, contains the trimmed
      input when it is non-blank, and keeps the list free of duplicates. */
  lemma AddTechKeeps(xs: seq<string>, input: string)
    ensures xs <= AddTech(xs, input)
    ensures Trim(input) != "" ==> Trim(input) in AddTech(xs, input)
    ensures |AddTech(xs, input)| <= |xs| + 1
    ensures NoDuplicates(xs) ==> NoDuplicates(AddTech(xs, input))
  {
    var r := AddTech(xs, input);
    if NoDuplicates(xs) && r != xs {
      forall a, b | 0 <= a < b < |r|
        ensures r[a] != r[b]
      {
        if b == |xs| {
          assert r[a] == xs[a];
        }
      }
    }
  }

  /** Removing works piecewise, so the survivors keep their order. */
  lemma {:induction false} RemoveTechAppend(a: seq<string>, b: seq<string>, x: string)
    ensures RemoveTech(a + b, x) == RemoveTech(a, x) + RemoveTech(b, x)
    decreases |a|
  {
    if a != [] {
      assert (a + b)[0] == a[0] && (a + b)[1..] == a[1..] + b;
      RemoveTechAppend(a[1..], b, x);
    } else {
      assert a + b == b;
    }
  }

  /** Every other technology keeps its number of occurrences. */
  lemma {:induction false} RemoveTechCounts(xs: seq<string>, x: string, y: string)
    ensures multiset(RemoveTech(xs, x))[y] == if y == x then 0 else multiset(xs)[y]
    decreases |xs|
  {
    if xs != [] {
      RemoveTechCounts(xs[1..], x, y);
      assert xs == [xs[0]] + xs[1..];
    }
  }

  /** Removing from a duplicate-free list leaves it duplicate-free. */
  lemma {:induction false} RemoveTechDistinct(xs: seq<string>, x: string)
    requires NoDuplicates(xs)
    ensures NoDuplicates(RemoveTech(xs, x))
    decreases |xs|
  {
    if xs != [] {
      assert NoDuplicates(xs[1..]) by {
        forall a, b | 0 <= a < b < |xs[1..]|
          ensures xs[1..][a] != xs[1..][b]
        {
          assert xs[a + 1] != xs[b + 1];
        }
      }
      RemoveTechDistinct(xs[1..], x);
      var rest := RemoveTech(xs[1..], x);
      if xs[0] != x {
        assert xs[0] !in xs[1..] by {
          forall b | 0 <= b < |xs[1..]|
            ensures xs[1..][b] != xs[0]
          {
            assert xs[b + 1] != xs[0];
          }
        }
        assert xs[0] !in rest;
        var r := [xs[0]] + rest;
        forall a, b | 0 <= a < b < |r|
          ensures r[a] != r[b]
        {
          if a == 0 {
            assert r[b] == rest[b - 1];
          } else {
            assert r[a] == rest[a - 1] && r[b] == rest[b - 1];
          }
        }
      } else {
        assert RemoveTech(xs, x) == [] + rest;
      }
    }
  }

  /** Removing a technology just added gives the list back. */
  lemma RemoveUndoesAdd(xs: seq<string>, input: string)
    requires Trim(input) != "" && Trim(input) !in xs
    ensures RemoveTech(AddTech(xs, input), Trim(input)) == xs
  {
    var t := Trim(input);
    RemoveTechAppend(xs, [t], t);
    RemoveTechAbsent(xs, t);
    assert RemoveTech([t], t) == [] + RemoveTech([t][1..], t);
  }

  /** Removing a technology that is not there changes nothing. */
  lemma {:induction false} RemoveTechAbsent(xs: seq<string>, x: string)
    requires x !in xs
    ensures RemoveTech(xs, x) == xs
    decreases |xs|
  {
    if xs != [] {
      RemoveTechAbsent(xs[1..], x);
      assert [xs[0]] + xs[1..] == xs;
    }
  }

  // ------------------------------------------------------------- form

  const UrlLimit: nat := 255
  const TitleLimit: nat := 100
  const DescriptionLimit: nat := 500

  datatype ProjectForm = ProjectForm(title: string, description: string, imageUrl: string,
                                     technologies: seq<string>, projectUrl: string,
                                     githubUrl: string, featured: bool)

  const EmptyForm: ProjectForm := ProjectForm("", "", "", [], "", "", false)

  /** The fields `validateForm` checks. */
  datatype Field = ImageUrl | ProjectUrl | GithubUrl | Title | Description

  function FieldValue(form: ProjectForm, f: Field): string {
    match f
    case ImageUrl => form.imageUrl
    case ProjectUrl => form.projectUrl
    case GithubUrl => form.githubUrl
    case Title => form.title
    case Description => form.description
  }

  function Limit(f: Field): nat {
    match f
    case Title => TitleLimit
    case Description => DescriptionLimit
    case _ => UrlLimit
  }

  function Message(f: Field): string {
    match f
    case ImageUrl => "Image URL must be less than 255 characters"
    case ProjectUrl => "Project URL must be less than 255 characters"
    case GithubUrl => "GitHub URL must be less than 255 characters"
    case Title => "Title must be less than 100 characters"
    case Description => "Description must be less than 500 characters"
  }

  predicate TooLong(form: ProjectForm, f: Field) {
    |FieldValue(form, f)| > Limit(f)
  }

  /** The limits a form must meet to be sent. */
  predicate WithinLimits(form: ProjectForm) {
    |form.imageUrl| <= 255 && |form.projectUrl| <= 255 && |form.githubUrl| <= 255
    && |form.title| <= 100 && |form.description| <= 500
  }

  /** `truncateUrl`: at most `maxLength` characters, cut from the end. */
  function TruncateUrl(url: string, maxLength: nat): (r: string)
    ensures r <= url
    ensures |r| == Min(|url|, maxLength)
  {
    if url == "" || |url| <= maxLength then url else url[..maxLength]
  }

  /** The data `handleSubmit` sends, the three URLs truncated to 255. */
  function Truncated(form: ProjectForm): ProjectForm {
    form.(imageUrl := TruncateUrl(form.imageUrl, UrlLimit),
          projectUrl := TruncateUrl(form.projectUrl, UrlLimit),
          githubUrl := TruncateUrl(form.githubUrl, UrlLimit))
  }

  /** Truncation only matters for forms that fail validation: a valid form
      is sent as it is, and every sent URL fits its column. */
  lemma ValidSubmitUnchanged(form: ProjectForm)
    ensures WithinLimits(form) ==> Truncated(form) == form
    ensures var t := Truncated(form);
            |t.imageUrl| <= UrlLimit && |t.projectUrl| <= UrlLimit && |t.githubUrl| <= UrlLimit
  {
    if WithinLimits(form) {
      assert form.imageUrl[..|form.imageUrl|] == form.imageUrl;
    }
  }

  /** One `if (…) errors.<field> = <message>` of `validateForm`. */
  method Flag(errors: map<Field, string>, f: Field, message: string, over: bool) returns (r: map<Field, string>)
    ensures r == if over then errors[f := message] else errors
  {
    r := errors;
    if over {
      r := r[f := message];
    }
  }

  /** The dictionary `validateForm` fills for a form, field by field, with
      the message `message(f)` for each field over its limit. */
  method FormErrors(form: ProjectForm, message: Field -> string) returns (errors: map<Field, string>)
    ensures forall f :: f in errors <==> TooLong(form, f)
    ensures forall f :: f in errors ==> errors[f] == message(f)
  {
    errors := Flag(map[], ImageUrl, message(ImageUrl), form.imageUrl != "" && |form.imageUrl| > 255);
    errors := Flag(errors, ProjectUrl, message(ProjectUrl), form.projectUrl != "" && |form.projectUrl| > 255);
    errors := Flag(errors, GithubUrl, message(GithubUrl), form.githubUrl != "" && |form.githubUrl| > 255);
    errors := Flag(errors, Title, message(Title), |form.title| > 100);
    errors := Flag(errors, Description, message(Description), |form.description| > 500);
    forall f
      ensures f in errors <==> TooLong(form, f)
    {
      match f
      case ImageUrl =>
      case ProjectUrl =>
      case GithubUrl =>
      case Title =>
      case Description =>
    }
  }

  /** The editor's state: the form, the technology input box and the
      errors shown under the fields. */
  class ProjectEditor {
    var form: ProjectForm
    var techInput: string
    var formErrors: map<Field, string>

    constructor()
      ensures form == EmptyForm && techInput == "" && formErrors == map[]
    {
      form := EmptyForm;
      techInput := "";
      formErrors := map[];
    }

    /** `validateForm` (client/src/components/admin/ProjectsManagement.jsx:60-88):
        one message per field over its limit. */
    method ValidateForm() returns (ok: bool)
      modifies this
      ensures form == old(form) && techInput == old(techInput)
      ensures forall f :: f in formErrors <==> TooLong(form, f)
      ensures forall f :: f in formErrors ==> formErrors[f] == Message(f)
      ensures ok <==> WithinLimits(form)
    {
      var errors := FormErrors(form, Message);
      formErrors := errors;
      ok := |errors.Keys| == 0;
      if !ok {
        assert exists f :: f in errors.Keys && TooLong(form, f);
      } else {
        assert !TooLong(form, ImageUrl) && !TooLong(form, ProjectUrl) && !TooLong(form, GithubUrl);
        assert !TooLong(form, Title) && !TooLong(form, Description);
      }
    }

    /** `handleAddTech` (client/src/components/admin/ProjectsManagement.jsx:124-132):
        the input box is cleared only when the technology was added. */
    method HandleAddTech()
      modifies this
      ensures form == old(form).(technologies := AddTech(old(form).technologies, old(techInput)))
      ensures techInput == if form.technologies != old(form).technologies then "" else old(techInput)
      ensures formErrors == old(formErrors)
    {
      var t := Trim(techInput);
      if t != "" && t !in form.technologies {
        form := form.(technologies := form.technologies + [t]);
        techInput := "";
      }
    }

    /** `handleRemoveTech` (client/src/components/admin/ProjectsManagement.jsx:134-139). */
    method HandleRemoveTech(tech: string)
      modifies this
      ensures form == old(form).(technologies := RemoveTech(old(form).technologies, tech))
      ensures techInput == old(techInput) && formErrors == old(formErrors)
    {
      form := form.(technologies := RemoveTech(form.technologies, tech));
    }

    /** `handleSubmit` up to the request
        (client/src/components/admin/ProjectsManagement.jsx:147-165): nothing
        is sent unless the form is valid, and then it is sent unchanged. */
    method HandleSubmit() returns (sent: Option<ProjectForm>)
      modifies this
      ensures form == old(form) && techInput == old(techInput)
      ensures forall f :: f in formErrors <==> TooLong(form, f)
      ensures sent.Some? ==> sent.value == Truncated(old(form))
      ensures sent == if WithinLimits(old(form)) then Some(old(form)) else None
    {
      var ok := ValidateForm();
      if !ok {
        return None;
      }
      ValidSubmitUnchanged(form);
      sent := Some(Truncated(form));
    }
  }
}
