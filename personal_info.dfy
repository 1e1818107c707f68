/** `parsePersonalInfo` (server/server.js:887-912): the leftmost e-mail
    address and phone number of the whole text, and the first place name of
    a fixed gazetteer, taken in list order, that the first line mentions.
    A field with nothing found stays unset. */
module Personal {
  import opened Wrappers
  import opened Text
  import opened Patterns

  datatype PersonalInfo = PersonalInfo(email: Option<string>, phone: Option<string>, location: Option<string>)

  /** The gazetteer, in the order it is tried. */
  const LocationKeywords: seq<string> := ["pune", "mumbai", "delhi", "bangalore", "hyderabad", "chennai", "india"]

  /** `s.match(pat)?.[0]`: the text of the leftmost match, unset when there is none. */
  function FirstMatch(pat: Pattern, s: string): Option<string> {
    if Matches(pat, s) then Some(MatchText(pat, s)) else None
  }

  /** The gazetteer test for one entry: the lower-cased line contains it. */
  function MentionedBy(low: string): string -> bool {
    (place: string) => Contains(low, place)
  }

  /** The first entry of `keywords` that the lower-cased `line` contains. */
  function LocationIn(line: string, keywords: seq<string>): Option<string> {
    match FindFrom(keywords, 0, MentionedBy(Lower(line)))
    case Some(k) => Some(keywords[k])
    case None => None
  }

  /** The record `parsePersonalInfo` returns. */
  function PersonalInfoOf(text: string): PersonalInfo {
    var lines := Lines(text);
    var location := if |lines| > 0 then LocationIn(lines[0], LocationKeywords) else None;
    PersonalInfo(FirstMatch(Email, text), FirstMatch(Phone, text), location)
  }

  /** The gazetteer loop with its `break` (server/server.js:900-908). */
  method FindLocation(firstLine: string, keywords: seq<string>) returns (location: Option<string>)
    ensures location == LocationIn(firstLine, keywords)
  {
    location := None;
    var low := Lower(firstLine);
    var k := 0;
    while k < |keywords|
      invariant k <= |keywords|
      invariant FindFrom(keywords, 0, MentionedBy(low)) == FindFrom(keywords, k, MentionedBy(low))
    {
      if Contains(low, keywords[k]) {
        location := Some(keywords[k]);
        break;
      }
      k := k + 1;
    }
  }

  method ParsePersonalInfo(text: string) returns (info: PersonalInfo)
    ensures info == PersonalInfoOf(text)
  {
    var lines := Lines(text);
    var email := FirstMatch(Email, text);
    var phone := FirstMatch(Phone, text);
    var location := None;
    if |lines| > 0 {
      location := FindLocation(lines[0], LocationKeywords);
    }
    info := PersonalInfo(email, phone, location);
  }

  /** The e-mail or phone field is unset exactly when its pattern matches
      nowhere, and otherwise it is the text of the match at the leftmost
      index where the pattern matches. */
  lemma FirstMatchLeftmost(pat: Pattern, s: string)
    ensures FirstMatch(pat, s).None? ==> forall k :: 0 <= k <= |s| ==> MatchAt(pat, s, k).None?
    ensures FirstMatch(pat, s).Some? ==>
              exists q: nat :: LeftmostMatch(pat, s, 0, q)
                               && FirstMatch(pat, s).value == s[MatchAt(pat, s, q).value.start..MatchAt(pat, s, q).value.end]
  {
    if Matches(pat, s) {
      SearchLeftmost(pat, s, 0);
      var q: nat :| LeftmostMatch(pat, s, 0, q);
      var sp := Search(pat, s, 0).value;
      assert FirstMatch(pat, s).value == s[sp.start..sp.end];
    } else {
      SearchNone(pat, s, 0);
    }
  }

  /** The location is the first entry, in list order, that the line
      mentions; it is unset exactly when the line mentions none. */
  lemma {:induction false} LocationFirstInList(line: string, keywords: seq<string>)
    ensures LocationIn(line, keywords).None? ==> forall k :: 0 <= k < |keywords| ==> !Contains(Lower(line), keywords[k])
    ensures (forall k :: 0 <= k < |keywords| ==> !Contains(Lower(line), keywords[k])) ==> LocationIn(line, keywords).None?
    ensures LocationIn(line, keywords).Some? ==>
              exists k :: 0 <= k < |keywords| && LocationIn(line, keywords).value == keywords[k]
                          && Contains(Lower(line), keywords[k])
                          && forall m :: 0 <= m < k ==> !Contains(Lower(line), keywords[m])
  {
    var p := MentionedBy(Lower(line));
    FindFromFirst(keywords, 0, p);
    assert forall k :: 0 <= k < |keywords| ==> p(keywords[k]) == Contains(Lower(line), keywords[k]);
    match FindFrom(keywords, 0, p)
    case Some(k) =>
      assert LocationIn(line, keywords).value == keywords[k];
    case None =>
  }
}
