/** The public portfolio page (client/src/components/Portfolio.jsx): how a
    project's image address is resolved, how skills are grouped by
    category, when the parsed resume is shown, and which sections have
    scrolled into view. */
module Portfolio {
  import opened Wrappers
  import opened Text
  import opened Storage

  // ------------------------------------------------------------ images

  const ServerOrigin: string := "http://localhost:5000"
  const UploadsPath: string := "/uploads/"
  const DefaultImageText: string := "Project Image"

  /** What an `<img>` shows: the generated placeholder picture (its caption
      is kept; the SVG text and its base-64 form are not modelled) or an
      address. */
  datatype ImageSource = Placeholder(caption: string) | Link(url: string)

  /** `getImageUrl` (client/src/components/Portfolio.jsx:345-359); a missing
      address or title is "". */
  function ImageUrl(imageUrl: string, title: string): (r: ImageSource)
    ensures r.Placeholder? <==> imageUrl == ""
    ensures r.Placeholder? ==> r.caption != ""
    ensures r.Link? ==> StartsWith(r.url, "http")
  {
    if imageUrl == "" then Placeholder(if title == "" then DefaultImageText else title)
    else if StartsWith(imageUrl, "http") then Link(imageUrl)
    else
      assert StartsWith(ServerOrigin, "http");
      if StartsWith(imageUrl, UploadsPath) then Link(ServerOrigin + imageUrl)
      else Link(ServerOrigin + UploadsPath + imageUrl)
  }

  /** A string keeps its prefix when more is appended. */
  lemma StartsWithAppend(s: string, w: string, t: string)
    requires StartsWith(s, w)
    ensures StartsWith(s + t, w)
  {
    assert (s + t)[..|w|] == s[..|w|];
  }

  /** An absolute address is used as it is, and resolving a resolved
      address changes nothing. */
  lemma ImageUrlIdempotent(imageUrl: string, title: string)
    ensures StartsWith(imageUrl, "http") ==> ImageUrl(imageUrl, title) == Link(imageUrl)
    ensures var r := ImageUrl(imageUrl, title);
            r.Link? ==> ImageUrl(r.url, title) == r
  {
    var r := ImageUrl(imageUrl, title);
    if r.Link? {
      assert r.url != "" by {
        assert |r.url| >= 4;
      }
    }
  }

  /** Every other non-empty address names a file of the server's uploads
      directory: the name itself, or the name behind "/uploads/". */
  lemma ImageUrlServesUploads(imageUrl: string, title: string)
    requires imageUrl != "" && !StartsWith(imageUrl, "http")
    ensures var r := ImageUrl(imageUrl, title);
            r.Link? && StartsWith(r.url, ServerOrigin + UploadsPath)
            && exists name :: r.url == ServerOrigin + UploadsPath + name
                              && (name == imageUrl || UploadsPath + name == imageUrl)
  {
    var r := ImageUrl(imageUrl, title);
    var prefix := ServerOrigin + UploadsPath;
    if StartsWith(imageUrl, UploadsPath) {
      var name := imageUrl[|UploadsPath|..];
      assert UploadsPath + name == imageUrl by {
        assert imageUrl[..|UploadsPath|] == UploadsPath;
      }
      assert r.url == prefix + name;
    } else {
      assert r.url == prefix + imageUrl;
    }
    assert StartsWith(prefix, prefix);
    var name :| r.url == prefix + name && (name == imageUrl || UploadsPath + name == imageUrl);
    StartsWithAppend(prefix, prefix, name);
  }

  // ------------------------------------------------------------ skills

  /** A skill as the skills endpoint returns it. */
  datatype Skill = Skill(id: int, name: string, category: string, proficiency: int, icon: string)

  /** `skill.category || 'Other'`. */
  function CategoryOf(s: Skill): (c: string)
    ensures c != ""
  {
    if s.category == "" then "Other" else s.category
  }

  /** The skills of one category, in input order. */
  function InCategory(skills: seq<Skill>, c: string): (r: seq<Skill>)
    ensures |r| <= |skills|
    ensures forall k :: 0 <= k < |r| ==> CategoryOf(r[k]) == c && r[k] in skills
    decreases |skills|
  {
    if skills == [] then []
    else
      var prev := skills[..|skills| - 1];
      var last := skills[|skills| - 1];
      InCategory(prev, c) + (if CategoryOf(last) == c then [last] else [])
  }

  /** The categories in order of first appearance: the order in which the
      reduce creates the keys of the grouped object. The page lists them
      in the object's own key order, `EntriesOrder`. */
  function Categories(skills: seq<Skill>): (r: seq<string>)
    ensures NoDuplicates(r)
    ensures forall c :: c in r <==> exists s :: s in skills && CategoryOf(s) == c
    decreases |skills|
  {
    if skills == [] then []
    else
      var prev := Categories(skills[..|skills| - 1]);
      var last := skills[|skills| - 1];
      assert forall s :: s in skills <==> s in skills[..|skills| - 1] || s == last;
      if CategoryOf(last) in prev then prev else prev + [CategoryOf(last)]
  }

  // ------------------------------------------------ plain-object keys

  /** The names an empty object literal inherits from `Object.prototype`.
      Each reads as a function or, for `__proto__`, as the prototype
      itself, so `!acc[name]` is false although no group was created. */
  const InheritedNames: set<string> :=
    {"constructor", "hasOwnProperty", "isPrototypeOf", "propertyIsEnumerable",
     "toLocaleString", "toString", "valueOf", "__proto__",
     "__defineGetter__", "__defineSetter__", "__lookupGetter__", "__lookupSetter__"}

  predicate Inherited(key: string) {
    key in InheritedNames
  }

  /** An array index: the decimal numeral of an integer below 2^32 - 1,
      written without a leading zero. */
  predicate IsArrayIndex(key: string) {
    (forall k :: 0 <= k < |key| ==> IsDigit(key[k]))
    && NatToString(RadixValue(key, false)) == key
    && RadixValue(key, false) < 0xFFFF_FFFF
  }

  function IndexValue(key: string): nat
    requires IsArrayIndex(key)
  {
    RadixValue(key, false)
  }

  /** Array-index keys in ascending numeric order. */
  predicate Ascending(keys: seq<string>) {
    (forall k :: 0 <= k < |keys| ==> IsArrayIndex(keys[k]))
    && forall a, b :: 0 <= a < b < |keys| ==> IndexValue(keys[a]) < IndexValue(keys[b])
  }

  /** An array-index key put in its place among ascending ones. */
  function InsertIndex(keys: seq<string>, key: string): (r: seq<string>)
    requires Ascending(keys) && IsArrayIndex(key)
    ensures Ascending(r)
    ensures forall x :: x in r <==> x in keys || x == key
    decreases |keys|
  {
    if keys == [] then [key]
    else if key == keys[0] then keys
    else if IndexValue(key) < IndexValue(keys[0]) then [key] + keys
    else
      assert IndexValue(key) != IndexValue(keys[0]);
      var rest := InsertIndex(keys[1..], key);
      assert forall x :: x in rest ==> IndexValue(keys[0]) < IndexValue(x) by {
        forall x | x in rest
          ensures IndexValue(keys[0]) < IndexValue(x)
        {
          if x != key {
            var k :| 0 <= k < |keys[1..]| && keys[1..][k] == x;
            assert keys[k + 1] == x;
          }
        }
      }
      [keys[0]] + rest
  }

  /** The array-index keys among `cs`, as an object lists them: ascending. */
  function IndexKeys(cs: seq<string>): (r: seq<string>)
    ensures Ascending(r)
    ensures forall x :: x in r <==> x in cs && IsArrayIndex(x)
    decreases |cs|
  {
    if cs == [] then []
    else
      var init := cs[..|cs| - 1];
      var last := cs[|cs| - 1];
      assert forall x :: x in cs <==> x in init || x == last;
      if IsArrayIndex(last) then InsertIndex(IndexKeys(init), last) else IndexKeys(init)
  }

  /** The other keys among `cs`, in the order they were created. */
  function NamedKeys(cs: seq<string>): (r: seq<string>)
    ensures forall x :: x in r <==> x in cs && !IsArrayIndex(x)
    ensures NoDuplicates(cs) ==> NoDuplicates(r)
    decreases |cs|
  {
    if cs == [] then []
    else
      var init := cs[..|cs| - 1];
      var last := cs[|cs| - 1];
      assert forall x :: x in cs <==> x in init || x == last;
      assert NoDuplicates(cs) ==> NoDuplicates(init) && last !in init by {
        if NoDuplicates(cs) {
          assert forall a :: 0 <= a < |init| ==> init[a] == cs[a];
        }
      }
      if IsArrayIndex(last) then NamedKeys(init) else NamedKeys(init) + [last]
  }

  /** `Object.entries` on an object whose keys were created in the order
      `cs`: the array-index keys first, ascending, then the other keys in
      creation order (ordinary own-property-key order, section 10.1.11.1 of
      ECMA-262). */
  function EntriesOrder(cs: seq<string>): (r: seq<string>)
    ensures forall x :: x in r <==> x in cs
    ensures NoDuplicates(cs) ==> NoDuplicates(r)
  {
    var ix := IndexKeys(cs);
    var named := NamedKeys(cs);
    assert NoDuplicates(ix);
    ix + named
  }

  /** In the listed order every array-index key comes before every other
      key, the array-index keys ascend, and the other keys keep their
      creation order. */
  lemma EntriesIndexFirst(cs: seq<string>)
    ensures var r := EntriesOrder(cs);
            forall a, b :: 0 <= a < b < |r| && IsArrayIndex(r[b]) ==>
              IsArrayIndex(r[a]) && IndexValue(r[a]) < IndexValue(r[b])
    ensures EntriesOrder(cs)[|IndexKeys(cs)|..] == NamedKeys(cs)
  {
    var r := EntriesOrder(cs);
    var ix := IndexKeys(cs);
    forall a, b | 0 <= a < b < |r| && IsArrayIndex(r[b])
      ensures IsArrayIndex(r[a]) && IndexValue(r[a]) < IndexValue(r[b])
    {
      assert forall k :: |ix| <= k < |r| ==> r[k] in NamedKeys(cs);
      assert r[a] == ix[a] && r[b] == ix[b];
    }
    assert r[|ix|..] == NamedKeys(cs);
  }

  /** Keys named after an object's own creation: numerals are listed
      before the words that were created ahead of them. */
  lemma NumeralListedFirst()
    ensures EntriesOrder(["Web", "2"]) == ["2", "Web"]
  {
    var cs := ["Web", "2"];
    assert IsArrayIndex("2") by {
      assert "2"[..0] == [];
      assert RadixValue("2", false) == 2;
      assert NatToString(2) == "2";
    }
    assert !IsArrayIndex("Web") by {
      assert !IsDigit("Web"[0]);
    }
    assert cs[..1] == ["Web"] && ["Web"][..0] == [];
    assert IndexKeys(["Web"]) == [];
    assert NamedKeys(["Web"]) == ["Web"];
    assert IndexKeys(cs) == ["2"];
    assert NamedKeys(cs) == ["Web"];
  }

  // ---------------------------------------------------------- grouping

  /** The grouping of a prefix: the categories met so far, each with its skills. */
  ghost predicate GroupedAs(skills: seq<Skill>, groups: map<string, seq<Skill>>, order: seq<string>) {
    order == Categories(skills)
    && (forall c :: c in groups <==> c in order)
    && (forall c :: c in groups ==> groups[c] == InCategory(skills, c))
  }

  /** A category no skill has has an empty group. */
  lemma {:induction false} EmptyCategory(skills: seq<Skill>, c: string)
    requires c !in Categories(skills)
    ensures InCategory(skills, c) == []
    decreases |skills|
  {
    if skills != [] {
      var prev := skills[..|skills| - 1];
      assert forall s :: s in prev ==> s in skills;
      EmptyCategory(prev, c);
    }
  }

  /** A skill added at the end joins the end of its own group only. */
  lemma InCategorySnoc(xs: seq<Skill>, s: Skill)
    ensures forall c :: InCategory(xs + [s], c) == InCategory(xs, c) + if CategoryOf(s) == c then [s] else []
    ensures Categories(xs + [s]) == if CategoryOf(s) in Categories(xs) then Categories(xs) else Categories(xs) + [CategoryOf(s)]
  {
    var ys := xs + [s];
    assert ys[..|ys| - 1] == xs && ys[|ys| - 1] == s;
  }

  /** One step of the reduce for a category met before. */
  lemma GroupStepKnown(xs: seq<Skill>, s: Skill, groups: map<string, seq<Skill>>, order: seq<string>)
    requires GroupedAs(xs, groups, order) && CategoryOf(s) in groups
    ensures GroupedAs(xs + [s], groups[CategoryOf(s) := groups[CategoryOf(s)] + [s]], order)
  {
    var c := CategoryOf(s);
    var g := groups[c := groups[c] + [s]];
    assert Categories(xs + [s]) == order by {
      InCategorySnoc(xs, s);
    }
    assert forall d :: d in g <==> d in groups;
    forall d | d in g
      ensures g[d] == InCategory(xs + [s], d)
    {
      InCategorySnoc(xs, s);
    }
  }

  /** One step of the reduce for a new category: its group is created
      empty, and its key goes last. */
  lemma GroupStepNew(xs: seq<Skill>, s: Skill, groups: map<string, seq<Skill>>, order: seq<string>)
    requires GroupedAs(xs, groups, order) && CategoryOf(s) !in groups
    ensures var c := CategoryOf(s);
            GroupedAs(xs + [s], groups[c := []][c := [] + [s]], order + [c])
  {
    var c := CategoryOf(s);
    var g := groups[c := []][c := [] + [s]];
    assert Categories(xs + [s]) == order + [c] by {
      InCategorySnoc(xs, s);
    }
    assert forall d :: d in g <==> d in order + [c];
    forall d | d in g
      ensures g[d] == InCategory(xs + [s], d)
    {
      InCategorySnoc(xs, s);
      EmptyCategory(xs, c);
    }
  }

  /** What the reduce leaves for the page: the groups with the order
      `Object.entries` lists them in, or the TypeError thrown at skill `at`
      whose category names an inherited member. */
  datatype Grouping = Grouped(groups: map<string, seq<Skill>>, listed: seq<string>)
                    | TypeError(at: nat)

  /** The `groupedSkills` reduce (client/src/components/Portfolio.jsx:322-329)
      and the key order `Object.entries` gives it at line 780. A category
      that names an inherited member skips the `acc[category] = []` and the
      push then throws. */
  method GroupSkills(skills: seq<Skill>) returns (r: Grouping)
    ensures r.TypeError? <==> exists i :: 0 <= i < |skills| && Inherited(CategoryOf(skills[i]))
    ensures r.TypeError? ==> r.at < |skills| && Inherited(CategoryOf(skills[r.at]))
                             && forall j :: 0 <= j < r.at ==> !Inherited(CategoryOf(skills[j]))
    ensures r.Grouped? ==> r.listed == EntriesOrder(Categories(skills))
    ensures r.Grouped? ==> forall c :: c in r.groups <==> c in Categories(skills)
    ensures r.Grouped? ==> forall c :: c in r.groups ==> r.groups[c] == InCategory(skills, c)
  {
    r := ReduceSkills(skills, InheritedNames);
  }

  /** The reduce itself, on an object whose prototype supplies the names
      `inherited`. */
  method ReduceSkills(skills: seq<Skill>, inherited: set<string>) returns (r: Grouping)
    ensures r.TypeError? <==> exists i :: 0 <= i < |skills| && CategoryOf(skills[i]) in inherited
    ensures r.TypeError? ==> r.at < |skills| && CategoryOf(skills[r.at]) in inherited
                             && forall j :: 0 <= j < r.at ==> CategoryOf(skills[j]) !in inherited
    ensures r.Grouped? ==> r.listed == EntriesOrder(Categories(skills))
    ensures r.Grouped? ==> forall c :: c in r.groups <==> c in Categories(skills)
    ensures r.Grouped? ==> forall c :: c in r.groups ==> r.groups[c] == InCategory(skills, c)
  {
    var groups: map<string, seq<Skill>> := map[];
    var order: seq<string> := [];
    for i := 0 to |skills|
      invariant GroupedAs(skills[..i], groups, order)
      invariant forall j :: 0 <= j < i ==> CategoryOf(skills[j]) !in inherited
      invariant forall c :: c in groups ==> c !in inherited
    {
      ghost var before, known := groups, order;
      var skill := skills[i];
      var category := if skill.category == "" then "Other" else skill.category;
      if category !in groups && category !in inherited {
        groups := groups[category := []];
        order := order + [category];
      }
      if category !in groups {
        return TypeError(i);
      }
      groups := groups[category := groups[category] + [skill]];
      assert GroupedAs(skills[..i + 1], groups, order) by {
        assert skills[..i + 1] == skills[..i] + [skill];
        if category in before {
          GroupStepKnown(skills[..i], skill, before, known);
        } else {
          GroupStepNew(skills[..i], skill, before, known);
        }
      }
    }
    assert GroupedAs(skills, groups, order) by {
      assert skills[..|skills|] == skills;
    }
    r := Grouped(groups, EntriesOrder(order));
  }

  /** The sizes of the groups of `cs`, added up. */
  function GroupSizes(skills: seq<Skill>, cs: seq<string>): nat
    decreases |cs|
  {
    if cs == [] then 0 else GroupSizes(skills, cs[..|cs| - 1]) + |InCategory(skills, cs[|cs| - 1])|
  }

  /** One more skill adds one to the total of a distinct list of
      categories exactly when its category is listed. */
  lemma {:induction false} GroupSizesStep(skills: seq<Skill>, s: Skill, cs: seq<string>)
    requires NoDuplicates(cs)
    ensures GroupSizes(skills + [s], cs) == GroupSizes(skills, cs) + if CategoryOf(s) in cs then 1 else 0
    decreases |cs|
  {
    var xs := skills + [s];
    assert xs[..|xs| - 1] == skills && xs[|xs| - 1] == s;
    if cs != [] {
      var init := cs[..|cs| - 1];
      assert NoDuplicates(init) by {
        forall a, b | 0 <= a < b < |init|
          ensures init[a] != init[b]
        {
          assert init[a] == cs[a] && init[b] == cs[b];
        }
      }
      GroupSizesStep(skills, s, init);
      var last := cs[|cs| - 1];
      assert last !in init by {
        forall a | 0 <= a < |init|
          ensures init[a] != last
        {
          assert init[a] == cs[a];
        }
      }
      assert forall c :: c in cs <==> c in init || c == last;
    }
  }

  /** The groups hold every skill exactly once: each group holds only its
      own category, and the group sizes add up to the number of skills. */
  lemma {:induction false} GroupsCoverSkills(skills: seq<Skill>)
    ensures GroupSizes(skills, Categories(skills)) == |skills|
    decreases |skills|
  {
    if skills != [] {
      var prev := skills[..|skills| - 1];
      var last := skills[|skills| - 1];
      assert prev + [last] == skills;
      GroupsCoverSkills(prev);
      var cs := Categories(prev);
      GroupSizesStep(prev, last, cs);
      if CategoryOf(last) !in cs {
        EmptyCategory(prev, CategoryOf(last));
        var cs2 := cs + [CategoryOf(last)];
        assert cs2[..|cs2| - 1] == cs;
      }
    }
  }

  /** Each skill is in the group of its own category, and in no other. */
  lemma {:induction false} SkillInItsGroup(skills: seq<Skill>, i: nat, c: string)
    requires i < |skills|
    ensures skills[i] in InCategory(skills, c) <==> c == CategoryOf(skills[i])
    decreases |skills|
  {
    var prev := skills[..|skills| - 1];
    if i < |prev| {
      assert skills[i] == prev[i];
      SkillInItsGroup(prev, i, c);
    } else {
      assert forall x :: x in InCategory(prev, c) ==> CategoryOf(x) == c;
    }
  }

  // ----------------------------------------------------- resume content

  /** The body of `GET /api/resume/content`: each list may be absent. */
  datatype ContentReply = ContentReply(education: Option<seq<EducationRow>>,
                                       experience: Option<seq<ExperienceRow>>,
                                       skills: Option<seq<SkillRow>>)

  predicate Listed<T>(list: Option<seq<T>>) {
    list.Some? && |list.value| > 0
  }

  /** `hasResumeContent` (client/src/components/Portfolio.jsx:365-373). */
  predicate HasContent(content: Option<ContentReply>) {
    content.Some? && (Listed(content.value.education) || Listed(content.value.experience) || Listed(content.value.skills))
  }

  /** What `fetchResumeContent` keeps of a reply
      (client/src/components/Portfolio.jsx:229-251); `None` is a failed
      request or an empty body. */
  function KeptContent(reply: Option<ContentReply>): Option<ContentReply> {
    if reply.Some? && (reply.value.education.Some? || reply.value.experience.Some? || reply.value.skills.Some?) then
      var r := reply.value;
      if Listed(r.education) || Listed(r.experience) || Listed(r.skills) then reply else None
    else None
  }

  /** A reply is kept exactly when it has something to show; so after a
      fetch the resume section shows content exactly when the reply had some. */
  lemma KeptExactlyWithContent(reply: Option<ContentReply>)
    ensures KeptContent(reply) == if HasContent(reply) then reply else None
    ensures HasContent(KeptContent(reply)) == HasContent(reply)
    ensures KeptContent(KeptContent(reply)) == KeptContent(reply)
  {
  }

  // ----------------------------------------------------------- sections

  /** One entry of an intersection-observer callback. */
  datatype Intersection = Intersection(id: string, isIntersecting: bool)

  /** The sections after a callback: each intersecting entry's id added. */
  function Observed(visible: set<string>, entries: seq<Intersection>): set<string>
    decreases |entries|
  {
    if entries == [] then visible
    else
      var e := entries[|entries| - 1];
      var before := Observed(visible, entries[..|entries| - 1]);
      if e.isIntersecting then before + {e.id} else before
  }

  /** `getAnimationClass` over a set of visible sections. */
  function AnimationClass(visible: set<string>, id: string): string {
    if id in visible then "animate-in" else ""
  }

  /** A callback adds exactly the ids of its intersecting entries and
      removes nothing. */
  lemma {:induction false} ObservedAddsIntersecting(visible: set<string>, entries: seq<Intersection>)
    ensures visible <= Observed(visible, entries)
    ensures forall id :: id in Observed(visible, entries) <==>
              id in visible || exists k :: 0 <= k < |entries| && entries[k].isIntersecting && entries[k].id == id
    decreases |entries|
  {
    if entries != [] {
      var init := entries[..|entries| - 1];
      ObservedAddsIntersecting(visible, init);
      forall id | (exists k :: 0 <= k < |entries| && entries[k].isIntersecting && entries[k].id == id)
        ensures id in Observed(visible, entries)
      {
        var k :| 0 <= k < |entries| && entries[k].isIntersecting && entries[k].id == id;
        if k < |init| {
          assert init[k] == entries[k];
        }
      }
      forall k | 0 <= k < |init|
        ensures init[k] == entries[k]
      {
      }
    }
  }

  /** A section once animated stays animated. */
  lemma AnimationStays(visible: set<string>, entries: seq<Intersection>, id: string)
    requires AnimationClass(visible, id) == "animate-in"
    ensures AnimationClass(Observed(visible, entries), id) == "animate-in"
  {
    ObservedAddsIntersecting(visible, entries);
  }

  /** The page state this model follows. */
  class PortfolioPage {
    var resumeContent: Option<ContentReply>
    var visibleSections: set<string>
    var loadingResume: bool

    constructor()
      ensures resumeContent == None && visibleSections == {} && loadingResume
    {
      resumeContent := None;
      visibleSections := {};
      loadingResume := true;
    }

    /** `fetchResumeContent` once the request has settled. */
    method FetchResumeContent(reply: Option<ContentReply>)
      modifies this
      ensures resumeContent == KeptContent(reply)
      ensures visibleSections == old(visibleSections) && !loadingResume
    {
      loadingResume := true;
      if reply.Some? && (reply.value.education.Some? || reply.value.experience.Some? || reply.value.skills.Some?) {
        var data := reply.value;
        var hasEducation := data.education.Some? && |data.education.value| > 0;
        var hasExperience := data.experience.Some? && |data.experience.value| > 0;
        var hasSkills := data.skills.Some? && |data.skills.value| > 0;
        if hasEducation || hasExperience || hasSkills {
          resumeContent := reply;
        } else {
          resumeContent := None;
        }
      } else {
        resumeContent := None;
      }
      loadingResume := false;
    }

    predicate HasResumeContent()
      reads this
    {
      HasContent(resumeContent)
    }

    function AnimationClassOf(id: string): string
      reads this
    {
      AnimationClass(visibleSections, id)
    }

    /** The intersection-observer callback of `setupScrollAnimations`
        (client/src/components/Portfolio.jsx:168-175): every intersecting
        entry adds its id to a copy of the set. */
    method OnIntersect(entries: seq<Intersection>)
      modifies this
      ensures visibleSections == Observed(old(visibleSections), entries)
      ensures resumeContent == old(resumeContent)
    {
      for i := 0 to |entries|
        invariant visibleSections == Observed(old(visibleSections), entries[..i])
        invariant resumeContent == old(resumeContent)
      {
        assert entries[..i + 1][..i] == entries[..i];
        if entries[i].isIntersecting {
          var copy := visibleSections;
          visibleSections := copy + {entries[i].id};
        }
      }
      assert entries[..|entries|] == entries;
    }
  }
}
