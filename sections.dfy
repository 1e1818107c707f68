/** The section-aware scan shared by `parseEducation` (server/server.js:616-679)
    and `parseExperience` (server/server.js:705-793). Each line is checked in
    turn: a heading opens the section and is skipped; otherwise a line that
    names another section closes it, and an in-section line that passes the
    anchor test starts a record. The three tests are parameters; each trims
    the line it is given. */
module Sections {
  /** The indices, from `i` on, of the lines the scan turns into records,
      when the section flag is `inSection` on entry to line `i`. */
  function SectionAnchors(lines: seq<string>, i: nat, inSection: bool,
                          heading: string -> bool, exit: string -> bool, anchor: string -> bool): (r: seq<nat>)
    requires i <= |lines|
    ensures forall k :: 0 <= k < |r| ==> i <= r[k] < |lines|
    decreases |lines| - i
  {
    if i == |lines| then []
    else
      var line := lines[i];
      if heading(line) then SectionAnchors(lines, i + 1, true, heading, exit, anchor)
      else
        var stay := inSection && !exit(line);
        var rest := SectionAnchors(lines, i + 1, stay, heading, exit, anchor);
        if stay && anchor(line) then [i] + rest else rest
  }

  /** The section flag on entry to line `j`, when it was `inSection` on
      entry to line `i`: a heading sets it, an exit line clears it. */
  function FlagAt(lines: seq<string>, i: nat, inSection: bool, j: nat,
                  heading: string -> bool, exit: string -> bool): bool
    requires i <= j <= |lines|
    decreases j
  {
    if j == i then inSection
    else if heading(lines[j - 1]) then true
    else FlagAt(lines, i, inSection, j - 1, heading, exit) && !exit(lines[j - 1])
  }

  /** Line `j` starts a record: it is not a heading, the section is open on
      entry to it, it does not close the section and it passes the anchor test. */
  predicate StartsRecord(lines: seq<string>, i: nat, inSection: bool, j: nat,
                         heading: string -> bool, exit: string -> bool, anchor: string -> bool)
    requires i <= j < |lines|
  {
    !heading(lines[j]) && FlagAt(lines, i, inSection, j, heading, exit)
    && !exit(lines[j]) && anchor(lines[j])
  }

  /** Stepping the scan past line `i` carries the flag along. */
  lemma {:induction false} FlagStep(lines: seq<string>, i: nat, inSection: bool, j: nat,
                                    heading: string -> bool, exit: string -> bool)
    requires i < j <= |lines|
    ensures var next := if heading(lines[i]) then true else inSection && !exit(lines[i]);
            FlagAt(lines, i, inSection, j, heading, exit) == FlagAt(lines, i + 1, next, j, heading, exit)
    decreases j
  {
    if j > i + 1 {
      FlagStep(lines, i, inSection, j - 1, heading, exit);
    }
  }

  /** Strictly increasing. */
  predicate Increasing(r: seq<nat>)
  {
    forall k, m :: 0 <= k < m < |r| ==> r[k] < r[m]
  }

  /** The anchors come in document order. */
  lemma {:induction false} AnchorsIncrease(lines: seq<string>, i: nat, inSection: bool,
                                           heading: string -> bool, exit: string -> bool, anchor: string -> bool)
    requires i <= |lines|
    ensures Increasing(SectionAnchors(lines, i, inSection, heading, exit, anchor))
    decreases |lines| - i
  {
    if i < |lines| {
      var next := if heading(lines[i]) then true else inSection && !exit(lines[i]);
      AnchorsIncrease(lines, i + 1, next, heading, exit, anchor);
      var rest := SectionAnchors(lines, i + 1, next, heading, exit, anchor);
      var r := SectionAnchors(lines, i, inSection, heading, exit, anchor);
      if !heading(lines[i]) && next && anchor(lines[i]) {
        assert r == [i] + rest;
        forall k, m | 0 <= k < m < |r| ensures r[k] < r[m] {
          assert r[m] == rest[m - 1] && i + 1 <= rest[m - 1];
          if k > 0 {
            assert r[k] == rest[k - 1];
          }
        }
      } else {
        assert r == rest;
      }
    }
  }

  /** The anchors are exactly the lines from `i` on that start a record. */
  lemma {:induction false} AnchorsAreStarts(lines: seq<string>, i: nat, inSection: bool, j: nat,
                                            heading: string -> bool, exit: string -> bool, anchor: string -> bool)
    requires i <= j < |lines|
    ensures j in SectionAnchors(lines, i, inSection, heading, exit, anchor)
            <==> StartsRecord(lines, i, inSection, j, heading, exit, anchor)
    decreases |lines| - i
  {
    var next := if heading(lines[i]) then true else inSection && !exit(lines[i]);
    var rest := SectionAnchors(lines, i + 1, next, heading, exit, anchor);
    if j == i {
      assert i !in rest;
    } else {
      AnchorsAreStarts(lines, i + 1, next, j, heading, exit, anchor);
      FlagStep(lines, i, inSection, j, heading, exit);
    }
  }

  /** No heading and no exit line among lines `a` up to `b`. */
  predicate Quiet(lines: seq<string>, a: nat, b: nat, heading: string -> bool, exit: string -> bool)
    requires a <= b <= |lines|
  {
    forall m :: a <= m < b ==> !heading(lines[m]) && !exit(lines[m])
  }

  /** Some heading at or after `i` and before `j` opened the section, with
      no heading and no exit line after it before `j`. */
  predicate HeadingOpened(lines: seq<string>, i: nat, j: nat, heading: string -> bool, exit: string -> bool)
    requires i <= j <= |lines|
  {
    exists h :: i <= h < j && heading(lines[h]) && Quiet(lines, h + 1, j, heading, exit)
  }

  /** One step of the loop that follows the scan: after line `i` the
      anchors found so far grow by `i` exactly when `i` starts a record, and
      the flag takes its next value. */
  lemma SectionStep(lines: seq<string>, i: nat, inSection: bool, anchors: seq<nat>,
                    heading: string -> bool, exit: string -> bool, anchor: string -> bool)
    requires i < |lines|
    requires anchors + SectionAnchors(lines, i, inSection, heading, exit, anchor)
             == SectionAnchors(lines, 0, false, heading, exit, anchor)
    ensures var next := if heading(lines[i]) then true else inSection && !exit(lines[i]);
            var found := if !heading(lines[i]) && next && anchor(lines[i]) then anchors + [i] else anchors;
            found + SectionAnchors(lines, i + 1, next, heading, exit, anchor)
            == SectionAnchors(lines, 0, false, heading, exit, anchor)
  {
    var next := if heading(lines[i]) then true else inSection && !exit(lines[i]);
    var rest := SectionAnchors(lines, i + 1, next, heading, exit, anchor);
    if !heading(lines[i]) && next && anchor(lines[i]) {
      assert anchors + ([i] + rest) == (anchors + [i]) + rest;
    }
  }

  /** Line `j` lies in an open section: a heading opened it, or it was
      already open at `i`, and no heading or exit line came since. */
  predicate Opened(lines: seq<string>, i: nat, inSection: bool, j: nat, heading: string -> bool, exit: string -> bool)
    requires i <= j <= |lines|
  {
    HeadingOpened(lines, i, j, heading, exit) || (inSection && Quiet(lines, i, j, heading, exit))
  }

  /** A heading just before `j` leaves the section open at `j`. */
  lemma OpenedAfterHeading(lines: seq<string>, i: nat, inSection: bool, j: nat, heading: string -> bool, exit: string -> bool)
    requires i < j <= |lines| && heading(lines[j - 1])
    ensures Opened(lines, i, inSection, j, heading, exit)
  {
    assert Quiet(lines, j, j, heading, exit);
    assert i <= j - 1 < j && heading(lines[j - 1]) && Quiet(lines, j, j, heading, exit);
  }

  /** An exit line just before `j`, not itself a heading, leaves the section closed at `j`. */
  lemma ClosedAfterExit(lines: seq<string>, i: nat, inSection: bool, j: nat, heading: string -> bool, exit: string -> bool)
    requires i < j <= |lines| && !heading(lines[j - 1]) && exit(lines[j - 1])
    ensures !Opened(lines, i, inSection, j, heading, exit)
  {
    assert !Quiet(lines, i, j, heading, exit);
    forall h | i <= h < j && heading(lines[h]) ensures !Quiet(lines, h + 1, j, heading, exit) {
      assert h < j - 1 && exit(lines[j - 1]);
    }
  }

  /** A line before `j` that is neither a heading nor an exit line keeps
      the section as it was. */
  lemma OpenedAcrossQuiet(lines: seq<string>, i: nat, inSection: bool, j: nat, heading: string -> bool, exit: string -> bool)
    requires i < j <= |lines| && !heading(lines[j - 1]) && !exit(lines[j - 1])
    ensures Opened(lines, i, inSection, j, heading, exit) == Opened(lines, i, inSection, j - 1, heading, exit)
  {
    if HeadingOpened(lines, i, j - 1, heading, exit) {
      var h :| i <= h < j - 1 && heading(lines[h]) && Quiet(lines, h + 1, j - 1, heading, exit);
      assert Quiet(lines, h + 1, j, heading, exit);
    }
    if HeadingOpened(lines, i, j, heading, exit) {
      var h :| i <= h < j && heading(lines[h]) && Quiet(lines, h + 1, j, heading, exit);
      assert h < j - 1;
      assert Quiet(lines, h + 1, j - 1, heading, exit);
    }
    assert Quiet(lines, i, j, heading, exit) == Quiet(lines, i, j - 1, heading, exit);
  }

  /** The flag is set on entry to line `j` exactly when the section is open there. */
  lemma {:induction false} FlagMeansOpen(lines: seq<string>, i: nat, inSection: bool, j: nat,
                                         heading: string -> bool, exit: string -> bool)
    requires i <= j <= |lines|
    ensures FlagAt(lines, i, inSection, j, heading, exit) == Opened(lines, i, inSection, j, heading, exit)
    decreases j
  {
    if j == i {
      assert Quiet(lines, i, i, heading, exit);
    } else {
      FlagMeansOpen(lines, i, inSection, j - 1, heading, exit);
      if heading(lines[j - 1]) {
        OpenedAfterHeading(lines, i, inSection, j, heading, exit);
      } else if exit(lines[j - 1]) {
        ClosedAfterExit(lines, i, inSection, j, heading, exit);
      } else {
        OpenedAcrossQuiet(lines, i, inSection, j, heading, exit);
      }
    }
  }

  /** The values `build` gives the indices `idx`, in order: one record per
      anchor line. */
  function MapAt<T>(idx: seq<nat>, build: nat --> T): (r: seq<T>)
    requires forall k :: 0 <= k < |idx| ==> build.requires(idx[k])
    ensures |r| == |idx|
  {
    if idx == [] then []
    else MapAt(idx[..|idx| - 1], build) + [build(idx[|idx| - 1])]
  }

  /** The records the scan builds: `build(i)` for each anchor `i`, in
      document order. Both extractors instantiate this with their own tests
      and record builder. */
  function SectionRecords<T>(lines: seq<string>, heading: string -> bool, exit: string -> bool,
                             anchor: string -> bool, build: nat --> T): (r: seq<T>)
    requires forall i :: 0 <= i < |lines| ==> build.requires(i)
    ensures var anchors := SectionAnchors(lines, 0, false, heading, exit, anchor);
            |r| == |anchors| && forall k :: 0 <= k < |r| ==> r[k] == build(anchors[k])
  {
    var anchors := SectionAnchors(lines, 0, false, heading, exit, anchor);
    MapAtEach(anchors, build);
    MapAt(anchors, build)
  }

  /** One more index: its value comes last. */
  lemma MapAtSnoc<T>(idx: seq<nat>, x: nat, build: nat --> T)
    requires forall k :: 0 <= k < |idx| ==> build.requires(idx[k])
    requires build.requires(x)
    ensures MapAt(idx + [x], build) == MapAt(idx, build) + [build(x)]
  {
    assert (idx + [x])[..|idx|] == idx;
  }

  /** Each index's value sits at that index's place. */
  lemma {:induction false} MapAtEach<T>(idx: seq<nat>, build: nat --> T)
    requires forall k :: 0 <= k < |idx| ==> build.requires(idx[k])
    ensures forall k :: 0 <= k < |idx| ==> MapAt(idx, build)[k] == build(idx[k])
    decreases |idx|
  {
    if idx != [] {
      var init := idx[..|idx| - 1];
      MapAtEach(init, build);
      assert forall k :: 0 <= k < |init| ==> init[k] == idx[k];
    }
  }
}
