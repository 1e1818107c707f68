/** `parseSkills` (server/server.js:799-885): six fixed vocabularies, a
    line-by-line scan that records, per category, each vocabulary skill the
    lower-cased line contains, and a "Technical Skills" fallback over the
    whole text when no category found anything. */
module Skills {
  import opened Text
  import Sections

  datatype SkillCategory = SkillCategory(category: string, skills: seq<string>)

  /** The keys of `skillCategories`, in declaration order. */
  const CategoryNames: seq<string> :=
    ["Programming Languages", "Frontend", "Backend", "Database", "Tools & Technologies", "Soft Skills"]

  /** The vocabularies, one per category name. Every entry is already lower case. */
  const Vocabularies: seq<seq<string>> := [
    ["javascript", "python", "java", "c++", "c#", "php", "ruby", "swift", "kotlin", "typescript"],
    ["react", "angular", "vue", "html", "css", "bootstrap", "tailwind", "sass", "jquery"],
    ["node.js", "express", "django", "flask", "spring", "laravel", "asp.net", "fastapi"],
    ["mysql", "mongodb", "postgresql", "sqlite", "oracle", "redis", "firebase"],
    ["git", "docker", "aws", "azure", "jenkins", "kubernetes", "linux", "rest api", "graphql"],
    ["communication", "leadership", "teamwork", "problem-solving", "agile", "scrum"]
  ]

  const FallbackCategory: string := "Technical Skills"
  const FallbackCap: nat := 15

  /** A skills heading: it mentions skills or technology and is shorter than
      50 characters (the raw line's length). */
  predicate IsHeading(line: string) {
    var low := Lower(line);
    (Contains(low, "skill") || Contains(low, "technical") || Contains(low, "technology")) && |line| < 50
  }

  /** A line naming another major section. */
  predicate IsExit(line: string) {
    var low := Lower(line);
    Contains(low, "experience") || Contains(low, "education") || Contains(low, "project")
  }

  // ------------------------------------------------------ one category

  /** The list `acc` after the skills `vocab[..n]` were tried against the
      lower-cased line `low`, in vocabulary order: a skill the line contains
      is pushed unless the list already holds it. */
  function AddFound(acc: seq<string>, low: string, vocab: seq<string>, n: nat): seq<string>
    requires n <= |vocab|
    decreases n
  {
    if n == 0 then acc
    else
      var prev := AddFound(acc, low, vocab, n - 1);
      var skill := vocab[n - 1];
      if Contains(low, Lower(skill)) && skill !in prev then prev + [skill] else prev
  }

  /** What a category has collected after lines `lines[..hi]`: headings are
      skipped, every other line adds the skills it contains. */
  function CategoryFound(lines: seq<string>, hi: nat, vocab: seq<string>, heading: string -> bool): seq<string>
    requires hi <= |lines|
    decreases hi
  {
    if hi == 0 then []
    else
      var prev := CategoryFound(lines, hi - 1, vocab, heading);
      if heading(lines[hi - 1]) then prev else AddFound(prev, Lower(lines[hi - 1]), vocab, |vocab|)
  }

  /** A skill ends up in the list exactly when it was there already or it
      is among the tried skills and the line contains it. */
  lemma {:induction false} AddFoundMembers(acc: seq<string>, low: string, vocab: seq<string>, n: nat)
    requires n <= |vocab|
    ensures forall s :: s in AddFound(acc, low, vocab, n) ==> s in acc || (s in vocab[..n] && Contains(low, Lower(s)))
    ensures forall s :: s in acc || (s in vocab[..n] && Contains(low, Lower(s))) ==> s in AddFound(acc, low, vocab, n)
    decreases n
  {
    if n > 0 {
      AddFoundMembers(acc, low, vocab, n - 1);
      assert vocab[..n] == vocab[..n - 1] + [vocab[n - 1]];
    }
  }

  /** Pushing only what is not there yet keeps the list free of duplicates. */
  lemma {:induction false} AddFoundNoDuplicates(acc: seq<string>, low: string, vocab: seq<string>, n: nat)
    requires n <= |vocab| && NoDuplicates(acc)
    ensures NoDuplicates(AddFound(acc, low, vocab, n))
    decreases n
  {
    if n > 0 {
      AddFoundNoDuplicates(acc, low, vocab, n - 1);
      var prev := AddFound(acc, low, vocab, n - 1);
      var skill := vocab[n - 1];
      if Contains(low, Lower(skill)) && skill !in prev {
        var r := prev + [skill];
        forall a, b | 0 <= a < b < |r| ensures r[a] != r[b] {
          if b == |prev| {
            assert r[a] == prev[a] && r[a] in prev;
          } else {
            assert r[a] == prev[a] && r[b] == prev[b];
          }
        }
      }
    }
  }

  /** Some line of `lines[..hi]` that is not a heading contains `skill`. */
  predicate SeenIn(lines: seq<string>, hi: nat, heading: string -> bool, skill: string)
    requires hi <= |lines|
  {
    exists j :: 0 <= j < hi && !heading(lines[j]) && Contains(Lower(lines[j]), Lower(skill))
  }

  /** A category never holds a skill twice. */
  lemma {:induction false} CategoryFoundNoDuplicates(lines: seq<string>, hi: nat, vocab: seq<string>, heading: string -> bool)
    requires hi <= |lines|
    ensures NoDuplicates(CategoryFound(lines, hi, vocab, heading))
    decreases hi
  {
    if hi > 0 {
      CategoryFoundNoDuplicates(lines, hi - 1, vocab, heading);
      if !heading(lines[hi - 1]) {
        AddFoundNoDuplicates(CategoryFound(lines, hi - 1, vocab, heading), Lower(lines[hi - 1]), vocab, |vocab|);
      }
    }
  }

  /** A category holds a skill exactly when the skill is in its vocabulary
      and some non-heading line contains it. */
  lemma {:induction false} CategoryFoundMembers(lines: seq<string>, hi: nat, vocab: seq<string>, heading: string -> bool)
    requires hi <= |lines|
    ensures forall s :: s in CategoryFound(lines, hi, vocab, heading) ==> s in vocab && SeenIn(lines, hi, heading, s)
    ensures forall s :: s in vocab && SeenIn(lines, hi, heading, s) ==> s in CategoryFound(lines, hi, vocab, heading)
    decreases hi
  {
    if hi > 0 {
      CategoryFoundMembers(lines, hi - 1, vocab, heading);
      var prev := CategoryFound(lines, hi - 1, vocab, heading);
      var line := lines[hi - 1];
      assert vocab[..|vocab|] == vocab;
      if !heading(line) {
        AddFoundMembers(prev, Lower(line), vocab, |vocab|);
      }
      forall s | s in CategoryFound(lines, hi, vocab, heading)
        ensures s in vocab && SeenIn(lines, hi, heading, s)
      {
        if s in prev {
          var j :| 0 <= j < hi - 1 && !heading(lines[j]) && Contains(Lower(lines[j]), Lower(s));
          assert 0 <= j < hi;
        } else {
          assert 0 <= hi - 1 < hi && !heading(lines[hi - 1]) && Contains(Lower(lines[hi - 1]), Lower(s));
        }
      }
      forall s | s in vocab && SeenIn(lines, hi, heading, s)
        ensures s in CategoryFound(lines, hi, vocab, heading)
      {
        var j :| 0 <= j < hi && !heading(lines[j]) && Contains(Lower(lines[j]), Lower(s));
        if j < hi - 1 {
          assert SeenIn(lines, hi - 1, heading, s);
        }
      }
    }
  }

  // --------------------------------------------------------- the scan

  /** One line tried against every category (server/server.js:831-837 and
      845-851, the same loop in both branches). */
  method ScanLine(found: seq<seq<string>>, low: string, vocabs: seq<seq<string>>) returns (r: seq<seq<string>>)
    requires |found| == |vocabs|
    ensures |r| == |vocabs|
    ensures forall c :: 0 <= c < |vocabs| ==> r[c] == AddFound(found[c], low, vocabs[c], |vocabs[c]|)
  {
    r := found;
    var c := 0;
    while c < |vocabs|
      invariant c <= |vocabs| && |r| == |vocabs|
      invariant forall d :: 0 <= d < c ==> r[d] == AddFound(found[d], low, vocabs[d], |vocabs[d]|)
      invariant forall d :: c <= d < |vocabs| ==> r[d] == found[d]
    {
      var list := r[c];
      var vocab := vocabs[c];
      var k := 0;
      while k < |vocab|
        invariant k <= |vocab| && list == AddFound(found[c], low, vocab, k)
      {
        var skill := vocab[k];
        if Contains(low, Lower(skill)) && skill !in list {
          list := list + [skill];
        }
        k := k + 1;
      }
      r := r[c := list];
      c := c + 1;
    }
  }

  /** The line loop with its section flag (server/server.js:812-853). A
      heading sets the flag and is skipped; inside the section an exit line
      clears it. Both branches run the same scan, so the flag never changes
      what is found: the result is `CategoryFound`, which has no flag. */
  method ScanSkills(lines: seq<string>, vocabs: seq<seq<string>>, heading: string -> bool, exit: string -> bool)
    returns (found: seq<seq<string>>)
    ensures |found| == |vocabs|
    ensures forall c :: 0 <= c < |vocabs| ==> found[c] == CategoryFound(lines, |lines|, vocabs[c], heading)
  {
    found := seq(|vocabs|, c => []);
    var inSkillsSection := false;
    var i := 0;
    while i < |lines|
      invariant i <= |lines| && |found| == |vocabs|
      invariant forall c :: 0 <= c < |vocabs| ==> found[c] == CategoryFound(lines, i, vocabs[c], heading)
    {
      var line := lines[i];
      var lowerLine := Lower(line);
      if heading(line) {
        inSkillsSection := true;
        i := i + 1;
        continue;
      }
      if inSkillsSection {
        found := ScanLine(found, lowerLine, vocabs);
        if exit(line) {
          inSkillsSection := false;
        }
      } else {
        found := ScanLine(found, lowerLine, vocabs);
      }
      i := i + 1;
    }
  }

  // ------------------------------------------------- the result list

  /** The indices of the non-empty lists among `found[..n]`, in order. */
  function NonEmptyAt(found: seq<seq<string>>, n: nat): (r: seq<nat>)
    requires n <= |found|
    ensures forall k :: 0 <= k < |r| ==> r[k] < n
    decreases n
  {
    if n == 0 then []
    else
      var rest := NonEmptyAt(found, n - 1);
      if found[n - 1] != [] then rest + [n - 1] else rest
  }

  /** The non-empty categories come in declaration order, each once, and
      exactly those. */
  lemma {:induction false} NonEmptyInOrder(found: seq<seq<string>>, n: nat)
    requires n <= |found|
    ensures Sections.Increasing(NonEmptyAt(found, n))
    ensures forall k: nat :: k in NonEmptyAt(found, n) <==> k < n && found[k] != []
    decreases n
  {
    if n > 0 {
      NonEmptyInOrder(found, n - 1);
      var rest := NonEmptyAt(found, n - 1);
      if found[n - 1] != [] {
        var r := rest + [n - 1];
        forall a, b | 0 <= a < b < |r| ensures r[a] < r[b] {
          assert r[a] == rest[a];
          if b < |rest| {
            assert r[b] == rest[b];
          }
        }
      }
    }
  }

  /** The entry for category `c`. */
  function Entry(names: seq<string>, found: seq<seq<string>>): nat --> SkillCategory {
    (c: nat) requires c < |names| && c < |found| => SkillCategory(names[c], found[c])
  }

  /** One entry per non-empty category, in declaration order. */
  function Categories(names: seq<string>, found: seq<seq<string>>): (r: seq<SkillCategory>)
    requires |names| == |found|
  {
    Sections.MapAt(NonEmptyAt(found, |found|), Entry(names, found))
  }

  /** The categories that found something, each under its own name with
      its own list, in declaration order; no other category appears. */
  lemma CategoriesListed(names: seq<string>, found: seq<seq<string>>)
    requires |names| == |found|
    ensures var idx := NonEmptyAt(found, |found|);
            var r := Categories(names, found);
            |r| == |idx| && Sections.Increasing(idx)
            && (forall k :: 0 <= k < |r| ==> r[k] == SkillCategory(names[idx[k]], found[idx[k]]) && found[idx[k]] != [])
            && (forall c :: 0 <= c < |found| && found[c] != [] ==> c in idx)
  {
    var idx := NonEmptyAt(found, |found|);
    NonEmptyInOrder(found, |found|);
    Sections.MapAtEach(idx, Entry(names, found));
    assert forall k :: 0 <= k < |idx| ==> idx[k] in idx;
  }

  /** The loop that turns the found lists into entries (server/server.js:856-863). */
  method CollectCategories(names: seq<string>, found: seq<seq<string>>) returns (skills: seq<SkillCategory>)
    requires |names| == |found|
    ensures skills == Categories(names, found)
  {
    skills := [];
    var c := 0;
    while c < |found|
      invariant c <= |found| && skills == Sections.MapAt(NonEmptyAt(found, c), Entry(names, found))
    {
      if |found[c]| > 0 {
        Sections.MapAtSnoc(NonEmptyAt(found, c), c, Entry(names, found));
        skills := skills + [SkillCategory(names[c], found[c])];
      }
      c := c + 1;
    }
  }

  // ------------------------------------------------------ the fallback

  /** The skills of `vocab[..n]` that the lower-cased text `low` contains, in order. */
  function MentionedIn(low: string, vocab: seq<string>, n: nat): seq<string>
    requires n <= |vocab|
    decreases n
  {
    if n == 0 then []
    else MentionedIn(low, vocab, n - 1) + (if Contains(low, Lower(vocab[n - 1])) then [vocab[n - 1]] else [])
  }

  /** The mentioned skills of the first `c` categories, category by category. */
  function AllMentioned(low: string, vocabs: seq<seq<string>>, c: nat): seq<string>
    requires c <= |vocabs|
    decreases c
  {
    if c == 0 then []
    else AllMentioned(low, vocabs, c - 1) + MentionedIn(low, vocabs[c - 1], |vocabs[c - 1]|)
  }

  lemma {:induction false} MentionedInMembers(low: string, vocab: seq<string>, n: nat)
    requires n <= |vocab|
    ensures forall s :: s in MentionedIn(low, vocab, n) <==> s in vocab[..n] && Contains(low, Lower(s))
    decreases n
  {
    if n > 0 {
      MentionedInMembers(low, vocab, n - 1);
      assert vocab[..n] == vocab[..n - 1] + [vocab[n - 1]];
    }
  }

  /** A skill is collected exactly when some vocabulary lists it and the text contains it. */
  lemma {:induction false} AllMentionedMembers(low: string, vocabs: seq<seq<string>>, c: nat)
    requires c <= |vocabs|
    ensures forall s :: s in AllMentioned(low, vocabs, c) ==>
              Contains(low, Lower(s)) && exists d :: 0 <= d < c && s in vocabs[d]
    ensures forall s :: Contains(low, Lower(s)) && (exists d :: 0 <= d < c && s in vocabs[d]) ==>
              s in AllMentioned(low, vocabs, c)
    decreases c
  {
    if c > 0 {
      AllMentionedMembers(low, vocabs, c - 1);
      var vocab := vocabs[c - 1];
      MentionedInMembers(low, vocab, |vocab|);
      assert vocab[..|vocab|] == vocab;
      forall s | Contains(low, Lower(s)) && (exists d :: 0 <= d < c && s in vocabs[d])
        ensures s in AllMentioned(low, vocabs, c)
      {
        var d :| 0 <= d < c && s in vocabs[d];
        if d < c - 1 {
          assert s in AllMentioned(low, vocabs, c - 1);
        }
      }
    }
  }

  /** The fallback loops (server/server.js:867-874). */
  method CollectMentioned(low: string, vocabs: seq<seq<string>>) returns (allSkills: seq<string>)
    ensures allSkills == AllMentioned(low, vocabs, |vocabs|)
  {
    allSkills := [];
    var c := 0;
    while c < |vocabs|
      invariant c <= |vocabs| && allSkills == AllMentioned(low, vocabs, c)
    {
      var vocab := vocabs[c];
      var k := 0;
      while k < |vocab|
        invariant k <= |vocab| && allSkills == AllMentioned(low, vocabs, c) + MentionedIn(low, vocab, k)
      {
        if Contains(low, Lower(vocab[k])) {
          allSkills := allSkills + [vocab[k]];
        }
        k := k + 1;
      }
      c := c + 1;
    }
  }

  // ------------------------------------------------------------ parseSkills

  /** What each category of the table `vocabs` found in the text. */
  function FoundIn(text: string, vocabs: seq<seq<string>>): (r: seq<seq<string>>)
    ensures |r| == |vocabs|
  {
    var lines := Lines(text);
    seq(|vocabs|, c requires 0 <= c < |vocabs| => CategoryFound(lines, |lines|, vocabs[c], IsHeading))
  }

  /** The result of `parseSkills` for the category table `names`/`vocabs`
      (`CategoryNames`/`Vocabularies` in the server). */
  function SkillsOf(text: string, names: seq<string>, vocabs: seq<seq<string>>): seq<SkillCategory>
    requires |names| == |vocabs|
  {
    var cats := Categories(names, FoundIn(text, vocabs));
    if cats != [] then cats
    else
      var all := AllMentioned(Lower(text), vocabs, |vocabs|);
      if all != [] then [SkillCategory(FallbackCategory, all[..Min(FallbackCap, |all|)])] else []
  }

  method ParseSkills(text: string) returns (skills: seq<SkillCategory>)
    ensures skills == SkillsOf(text, CategoryNames, Vocabularies)
  {
    var lines := Lines(text);
    var found := ScanSkills(lines, Vocabularies, IsHeading, IsExit);
    assert found == FoundIn(text, Vocabularies);
    skills := CollectCategories(CategoryNames, found);
    if |skills| == 0 {
      var allSkills := CollectMentioned(Lower(text), Vocabularies);
      if |allSkills| > 0 {
        skills := [SkillCategory(FallbackCategory, allSkills[..Min(FallbackCap, |allSkills|)])];
      }
    }
  }

  /** Each entry built from a scan holds skills from its own category's
      vocabulary, at least one and none twice. */
  lemma EntriesFromScan(names: seq<string>, vocabs: seq<seq<string>>, lines: seq<string>, heading: string -> bool,
                        found: seq<seq<string>>)
    requires |names| == |found| == |vocabs|
    requires forall c :: 0 <= c < |found| ==> found[c] == CategoryFound(lines, |lines|, vocabs[c], heading)
    ensures var idx := NonEmptyAt(found, |found|);
            var r := Categories(names, found);
            forall k :: 0 <= k < |r| ==>
              r[k].category == names[idx[k]] && r[k].skills != [] && NoDuplicates(r[k].skills)
              && forall s :: s in r[k].skills ==> s in vocabs[idx[k]]
  {
    CategoriesListed(names, found);
    var idx := NonEmptyAt(found, |found|);
    forall k | 0 <= k < |idx|
      ensures NoDuplicates(found[idx[k]]) && forall s :: s in found[idx[k]] ==> s in vocabs[idx[k]]
    {
      CategoryFoundMembers(lines, |lines|, vocabs[idx[k]], heading);
      CategoryFoundNoDuplicates(lines, |lines|, vocabs[idx[k]], heading);
    }
  }

  /** When some category found a skill, the result lists exactly the
      categories that found one, in declaration order, each under its own
      name, with skills from its own vocabulary that a non-heading line
      contains, none twice. */
  lemma ScanResult(text: string, names: seq<string>, vocabs: seq<seq<string>>)
    requires |names| == |vocabs|
    requires exists c :: 0 <= c < |vocabs| && FoundIn(text, vocabs)[c] != []
    ensures var r := SkillsOf(text, names, vocabs);
            var found := FoundIn(text, vocabs);
            var idx := NonEmptyAt(found, |found|);
            |r| == |idx| && Sections.Increasing(idx)
            && (forall c :: 0 <= c < |found| && found[c] != [] ==> c in idx)
            && forall k :: 0 <= k < |r| ==>
                 r[k].category == names[idx[k]] && r[k].skills != [] && NoDuplicates(r[k].skills)
                 && forall s :: s in r[k].skills ==> s in vocabs[idx[k]]
  {
    var found := FoundIn(text, vocabs);
    var lines := Lines(text);
    CategoriesListed(names, found);
    EntriesFromScan(names, vocabs, lines, IsHeading, found);
    var c :| 0 <= c < |vocabs| && found[c] != [];
    assert c in NonEmptyAt(found, |found|);
  }

  /** The "Technical Skills" entry appears only when no category found
      anything: then the result is at most that one entry, holding at most
      15 skills, each listed in some vocabulary and contained in the text. */
  lemma FallbackResult(text: string, names: seq<string>, vocabs: seq<seq<string>>)
    requires |names| == |vocabs|
    requires forall c :: 0 <= c < |vocabs| ==> FoundIn(text, vocabs)[c] == []
    ensures var r := SkillsOf(text, names, vocabs);
            |r| <= 1
            && forall k :: 0 <= k < |r| ==>
                 r[k].category == FallbackCategory && 0 < |r[k].skills| <= FallbackCap
                 && forall s :: s in r[k].skills ==>
                      Contains(Lower(text), Lower(s)) && exists d :: 0 <= d < |vocabs| && s in vocabs[d]
  {
    var found := FoundIn(text, vocabs);
    CategoriesListed(names, found);
    assert Categories(names, found) == [];
    var all := AllMentioned(Lower(text), vocabs, |vocabs|);
    AllMentionedMembers(Lower(text), vocabs, |vocabs|);
    assert forall s :: s in all[..Min(FallbackCap, |all|)] ==> s in all;
  }
}
