# Resume extraction and portfolio helpers, in Dafny

This project models the core of a personal portfolio site: an Express
server plus a React client. The centre of the model is the server's
resume pipeline. An uploaded PDF's text goes through four section-aware
extractors (education, experience, skills and personal details). The
records are stored in three MySQL tables, and a chain of fallbacks
(basic parsing, then fixed sample data) takes over when full parsing
fails. Around the pipeline sit:

- the codecs for the list-valued columns (achievements joined with
  `"| "`, skills with `", "`) and the rules for entries typed by hand;
- the in-memory response cache of the public resume endpoints;
- the client's token store and remaining-time text;
- the project editor's validation and technology list;
- the portfolio page's image resolution, skill grouping,
  content-presence test and scroll-animation set.

## Layout

| module | file | what it holds |
|---|---|---|
| `Wrappers` | wrappers.dfy | `Option` |
| `Text` | text.dfy | `trim`, ASCII `toLowerCase`, `includes`, `indexOf`, `split`, `join`, decimal numerals, first-hit and harvest look-ahead scans |
| `Patterns` | patterns.dfy | each regular expression of the extractors, written out as a match function plus a leftmost search |
| `Sections` | sections.dfy | the section-flag scan shared by the education and experience extractors |
| `Education`, `Experience`, `Skills`, `Personal` | education.dfy, experience.dfy, skills.dfy, personal_info.dfy | the four extractors: a method with loops for each, proved equal to a specification function, plus lemmas about that function |
| `Storage` | storage.dfy | the three tables (class `ResumeStore`), the insert statements, the column codecs and the manual-entry routes |
| `Orchestrator` | orchestrator.dfy | `parseResumeContent`, `parseResumeBasic` and `createSampleResumeData` |
| `Cache` | cache.dfy | `apiCache` (class `ApiCache`) and its middleware |
| `Auth` | auth.dfy | the token store (class `Session`) and the remaining-time text |
| `Projects` | projects.dfy | the project editor (class `ProjectEditor`) |
| `Portfolio` | portfolio.dfy | the portfolio page (class `PortfolioPage`) |

How the world outside the code is represented:

- The PDF text is an input. It is `Some("")` when reading or parsing
  the PDF threw, because `text` starts as `''`, and `None` when
  pdf-parse returned no `text` field. Both are falsy, so both lead to
  the sample data.
- The database is a map from resume id to that resume's rows.
- A failing insert is an input `failAt`: the index of the first insert
  statement that throws.
- Clock readings are parameters: `now` when a request or check arrives,
  `sent` when a reply goes out.
- A request to a cached endpoint is two events: its arrival, where the
  hit test runs, and the sending of the route's reply, where the reply
  is stored. The route awaits the database in between, so a run of the
  cache interleaves these events with clears and other requests.
- `localStorage` is a `map<string, string>`, and the axios default
  header is an `Option`.
- `JSON.parse` is an input oracle (`JsonOutcome`).

## Model

| member | source | states |
|---|---|---|
| `Education.ParseEducation` | server/server.js:612-696 | returns `EducationOf(text)`: the loops of `parseEducation` compute the specification function |
| `Education.EducationOf` | server/server.js:681-695 | at most 3 records; the first three records of the section scan when it found any; otherwise the (at most one) fallback record |
| `Education.ScanSection` | server/server.js:619-679 | the section loop emits one record per anchor index of `SectionAnchors`, in order |
| `Education.FillFromWindow` | server/server.js:652-676 | the look-ahead fills the record of the anchor at line `i` exactly as `AnchorRecord` specifies |
| `Education.ScanWindow` | server/server.js:654-675 | the window loop sets institution, period and GPA to the first hit of each test in `lines[lo..hi]` |
| `Education.FindFallback` | server/server.js:681-693 | the unscoped loop stops at its first hit and yields `Fallback(lines)` |
| `Education.Fallback` | server/server.js:681-693 | at most one record, with institution "Educational Institution" and empty period and GPA |
| `Education.ScanFollowsAnchors` | server/server.js:619-679 | anchors increase (document order); record `k` is built from anchor `k`; a line is an anchor exactly when it is not a heading, the section is open, it does not close the section and it carries a degree signal |
| `Education.FirstMatchWins` | server/server.js:652-675 | the window ends at most 4 lines after the anchor; each non-empty field comes from a window line with no earlier line matching that field (a later match never overwrites) |
| `Education.FallbackFirstLine` | server/server.js:681-693 | the fallback is empty exactly when no line names university, college, bachelor or master; otherwise it is built from the first such line, trimmed |
| `Experience.ParseExperience` | server/server.js:698-797 | returns `ExperienceOf(text)` |
| `Experience.ExperienceOf` | server/server.js:796 | at most 4 records, a prefix of the scan's records, and all of them when fewer than 4 |
| `Experience.ScanSection` | server/server.js:705-793 | the section loop emits one record per anchor of `SectionAnchors`, in order |
| `Experience.FillExperience` | server/server.js:730-790 | the record of the anchor at line `i` is `ExperienceItem(lines, i)` |
| `Experience.LookAheadLoop` | server/server.js:748-778 | a company from the split is kept, otherwise the first qualifying line; the period is the first dated line's match; achievements are all item lines, in order |
| `Experience.DescriptionLoop` | server/server.js:780-789 | the description is the trimmed accumulation of the accepted lines |
| `Experience.ScanFollowsAnchors` | server/server.js:705-793 | anchors increase; record `k` is built from anchor `k`; a line is an anchor exactly when it starts a record in an open section |
| `Experience.AtSplitParts` | server/server.js:740-744 | a trimmed anchor containing " at " (any case) splits into a non-empty, trimmed position and a non-empty, trimmed company |
| `Experience.CompanyFirstOrSplit` | server/server.js:740-755 | a company from the split is never replaced; otherwise the company is the first qualifying window line, or "" when none qualifies |
| `Experience.PeriodFromFirstDatedLine` | server/server.js:757-772 | the period comes from the earliest window line any date pattern matches, or is "" when none does |
| `Experience.FirstPatternWins` | server/server.js:765-771 | within a line the four date patterns are tried in order and the first that matches supplies the period |
| `Experience.AchievementsOrDescription` | server/server.js:748-789 | windows of at most 9 and 3 lines; achievements come only from item lines; achievements are empty exactly when no item line is in the window; the description is non-empty only without achievements, and is then the accepted lines joined by one blank |
| `Experience.AchievementMarkers` | server/server.js:775-777 | a numbered item keeps its number; a bullet item loses its mark and the blanks after it |
| `Experience.AccumulateShape` | server/server.js:782-788 | the accumulated description is each accepted line, trimmed, followed by one blank |
| `Experience.AccumulateJoin` | server/server.js:782-789 | trimmed, it equals the accepted lines joined by one blank |
| `Experience.HarvestTrimmed` | server/server.js:782-789 | every collected description line is non-empty and trimmed |
| `Experience.DescriptionLineText` | server/server.js:784 | an accepted description line is non-empty once trimmed |
| `Sections.SectionAnchors` | server/server.js:619-679 | the record lines of the shared section scan: every index lies within the lines |
| `Sections.SectionRecords` | server/server.js:616-793 | the records of either scan: one per anchor, in document order, record `k` built from anchor `k` |
| `Sections.AnchorsIncrease` | server/server.js:619-679 | the anchors come in document order |
| `Sections.AnchorsAreStarts` | server/server.js:619-679 | a line is an anchor exactly when it starts a record |
| `Sections.FlagStep` | server/server.js:624-632 | a heading sets the section flag; an exit line clears it; any other line keeps it |
| `Sections.SectionStep` | server/server.js:619-679 | one loop step keeps the anchor invariant |
| `Sections.FlagMeansOpen` | server/server.js:624-632 | the flag on entry to a line is set exactly when a heading opened the section and no exit line closed it since |
| `Sections.OpenedAfterHeading` | server/server.js:624-627 | a heading leaves the section open |
| `Sections.ClosedAfterExit` | server/server.js:630-632 | an exit line that is not a heading leaves it closed |
| `Sections.OpenedAcrossQuiet` | server/server.js:619-679 | other lines leave the section as it was |
| `Sections.MapAt` | server/server.js:676 | one record per anchor |
| `Sections.MapAtSnoc` | server/server.js:676 | a push appends the new record last |
| `Sections.MapAtEach` | server/server.js:676 | record `k` is the one built at anchor `k` |
| `Skills.ParseSkills` | server/server.js:799-885 | returns `SkillsOf(text, CategoryNames, Vocabularies)` |
| `Skills.ScanSkills` | server/server.js:812-853 | after the line loop each category holds `CategoryFound(...)`, which skips headings and does not depend on the exit test: both branches run the same scan |
| `Skills.ScanLine` | server/server.js:829-849 | one line is tried against every category's vocabulary |
| `Skills.CollectCategories` | server/server.js:856-863 | the entries are `Categories(names, found)` |
| `Skills.CollectMentioned` | server/server.js:865-874 | the fallback list is `AllMentioned`, category by category |
| `Skills.AddFoundMembers` | server/server.js:831-837 | a skill is in the list after one line exactly when it was there already, or it is in the vocabulary and the line contains it |
| `Skills.AddFoundNoDuplicates` | server/server.js:833 | pushing only absent skills keeps the list free of duplicates |
| `Skills.CategoryFoundNoDuplicates` | server/server.js:812-853 | no category lists a skill twice |
| `Skills.CategoryFoundMembers` | server/server.js:812-853 | a category holds a skill exactly when the skill is in its vocabulary and some non-heading line contains it |
| `Skills.NonEmptyAt` | server/server.js:856-863 | the indices of the non-empty categories are category indices |
| `Skills.NonEmptyInOrder` | server/server.js:856-863 | the indices increase and are exactly the non-empty categories |
| `Skills.CategoriesListed` | server/server.js:856-863 | the entries are the non-empty categories, in declaration order, each under its own name with its own list |
| `Skills.MentionedInMembers` | server/server.js:868-873 | a skill is mentioned exactly when it is in the vocabulary and the text contains it |
| `Skills.AllMentionedMembers` | server/server.js:865-874 | a skill is collected exactly when some vocabulary lists it and the text contains it |
| `Skills.FoundIn` | server/server.js:812-853 | one list per category |
| `Skills.EntriesFromScan` | server/server.js:812-863 | each entry is named for its category and holds at least one skill from its own vocabulary, none twice |
| `Skills.ScanResult` | server/server.js:812-863 | when any category found a skill, the result is exactly the non-empty categories, in declaration order, with vocabulary skills and no duplicates |
| `Skills.FallbackResult` | server/server.js:865-882 | otherwise the result is at most the one "Technical Skills" entry of at most 15 skills, each in some vocabulary and contained in the text |
| `Personal.ParsePersonalInfo` | server/server.js:887-912 | returns `PersonalInfoOf(text)` |
| `Personal.FindLocation` | server/server.js:900-908 | the gazetteer loop with its `break` returns the first listed place that the lower-cased first line contains |
| `Personal.LocationFirstInList` | server/server.js:900-908 | the location is unset exactly when no place is contained; otherwise it is the first in list order |
| `Personal.FirstMatchLeftmost` | server/server.js:891-897 | e-mail and phone are unset exactly when their pattern matches nowhere; otherwise they are the leftmost match |
| `Patterns.MatchAt` | server/server.js:663-669 | a match starts at the given index (the GPA value after it) and lies within the text; a date match starts with `20` and two digits; a GPA value starts and ends with a digit |
| `Patterns.GpaAt` | server/server.js:669-672 | the captured GPA value follows the keyword and starts and ends with a digit |
| `Patterns.AfterYearDash` | server/server.js:663 | `20\d{2}[-–]\s*` matches: a year followed by a hyphen or an en dash |
| `Patterns.NowWordEnd` | server/server.js:663 | present/current/now consumes at least one character |
| `Patterns.MonthYearEnd` | server/server.js:762-763 | a month and a year take at least 7 characters |
| `Patterns.DashAfter` | server/server.js:762-763 | the dash is consumed |
| `Patterns.EmailAt` | server/server.js:892 | an e-mail match starts at the given index and lies within the text |
| `Patterns.TryDomain` | server/server.js:892 | the domain ends after its start |
| `Patterns.TryTld` | server/server.js:892 | the top-level part has at least two letters |
| `Patterns.PhoneAt` | server/server.js:896 | a phone match starts at the given index and lies within the text |
| `Patterns.GroupedTail` | server/server.js:896 | a grouped number has at least 10 characters |
| `Patterns.RunEnd` | server/server.js:669 | a greedy run ends within the text |
| `Patterns.RunEndStops` | server/server.js:669 | the run is all of its class and stops at a character outside it |
| `Patterns.FirstSuccess` | server/server.js:892-896 | a reported match comes from some tried index |
| `Patterns.FirstSuccessFinds` | server/server.js:892-896 | the first index that succeeds is the one reported |
| `Patterns.FirstSuccessNone` | server/server.js:892-896 | no match is reported exactly when every index fails |
| `Patterns.FirstSuccessLeftmost` | server/server.js:892-896 | a reported match is the first success |
| `Patterns.Search` | server/server.js:892-896 | `String.match` finds a span within the text |
| `Patterns.SearchFindsFirst` | server/server.js:892-896 | the leftmost matching index is the one found |
| `Patterns.SearchNone` | server/server.js:892-896 | nothing is found exactly when no index matches |
| `Patterns.SearchLeftmost` | server/server.js:892-896 | a found match starts at the leftmost matching index |
| `Patterns.MatchText` | server/server.js:663-669 | the match text is "" exactly when the pattern does not match |
| `Storage.RoundTrip` | server/server.js:453-462 | decoding an encoded list gives it back when every item is non-empty, trimmed and free of the delimiter |
| `Storage.DecodedItems` | server/server.js:1137-1162 | a value with the delimiter decodes to non-empty, trimmed, delimiter-free items; one without it decodes to itself, or to nothing when empty |
| `Storage.EncodedPieces` | server/server.js:453-462 | the split pieces of an encoded list of two or more items trim to the items |
| `Storage.HarvestTrimsAll` | server/server.js:1141-1143 | pieces that trim to non-empty items are all kept, trimmed |
| `Storage.ManualLines` | server/server.js:342-344 | hand-entered achievements are the non-blank lines, none holding a newline; a non-empty input gives none only when every line is blank |
| `Storage.ManualRoundTrip` | server/server.js:342-345 | hand-entered achievements read back unchanged when each is trimmed and free of `|` |
| `Storage.ApplyEducation` | server/server.js:444-449 | education inserts append their rows, in order, and leave the other tables alone |
| `Storage.ApplyExperience` | server/server.js:452-458 | experience inserts do the same for their table |
| `Storage.ApplySkills` | server/server.js:461-467 | skill inserts do the same for their table |
| `Storage.ApplyAllAppend` | server/server.js:444-467 | two batches of inserts run one after the other |
| `Storage.StoredInOrder` | server/server.js:444-467 | the three insert loops append each table's rows in order |
| `Storage.ResumeStore.constructor` | server/server.js:116-184 | the tables of a freshly created database start empty |
| `Storage.ResumeStore.Clear` | server/server.js:435-439 | the three deletes empty the resume's rows |
| `Storage.ResumeStore.InsertEducation` | server/server.js:446-449 | one row goes last in the resume's education table |
| `Storage.ResumeStore.InsertExperience` | server/server.js:454-457 | one row goes last in the experience table |
| `Storage.ResumeStore.InsertSkill` | server/server.js:463-466 | one row goes last in the skills table |
| `Storage.ResumeStore.Execute` | server/server.js:444-467 | one insert statement against one resume |
| `Storage.ResumeStore.ExecuteAll` | server/server.js:444-467 | the statements run until the failing one; only the statements before it take effect; other resumes are untouched |
| `Storage.ResumeStore.AddEducation` | server/server.js:265-291 | refused with the source's message when there is no resume or degree, institution or period is missing; otherwise exactly one row is appended |
| `Storage.ResumeStore.AddExperience` | server/server.js:328-360 | the same checks for position, company and period; the typed achievements are stored as the non-blank lines joined with "| " |
| `Orchestrator.ParseResumeContent` | server/server.js:399-496 | result and rows are `ContentResult` and `ContentRows` of the extracted text and the failing insert; other resumes are untouched |
| `Orchestrator.ParseNonBlank` | server/server.js:408-486 | on non-blank text: full parse, clear, store; on a failing insert, basic parsing behind the rows already stored |
| `Orchestrator.ParseBlank` | server/server.js:414-494 | blank text throws (414-415); a truthy text goes to basic parsing and a missing or empty one to the sample data |
| `Orchestrator.StoreOrFallback` | server/server.js:434-494 | all inserts complete and the parse is returned, or basic parsing runs on the same text behind the rows inserted so far |
| `Orchestrator.StoreParsed` | server/server.js:434-467 | clears the resume's rows, then stores the parse up to the failing insert |
| `Orchestrator.NonBlankOutcome` | server/server.js:408-494 | on non-blank text the outcome is the full parse, or basic parsing behind the rows stored before the failing insert |
| `Orchestrator.ParseAll` | server/server.js:418-432 | the four extractors run on the text |
| `Orchestrator.StoredParse` | server/server.js:434-467 | storing a parse into emptied tables leaves one row per record, in order |
| `Orchestrator.RowsReadBack` | server/server.js:1137-1169 | stored achievements and skills read back as parsed when their items are storable; every skills row has a category ("Other" by default) |
| `Orchestrator.ParsedSkillsStorable` | server/server.js:461-467 | skills from comma-free vocabularies are storable, so every `parseSkills` output round-trips |
| `Orchestrator.ParseResumeBasic` | server/server.js:546-609 | returns `BasicResult(text)` and appends `BasicInserts(text)` to the rows without clearing them |
| `Orchestrator.BasicEducationLoop` | server/server.js:557-575 | the loop computes `BasicScan`, with the entry being filled pushed last |
| `Orchestrator.BasicDegrees` | server/server.js:561-570 | one entry per degree line, in order, its degree the trimmed line |
| `Orchestrator.BasicStored` | server/server.js:589-603 | education rows are appended behind the old rows, then at most one skills row; experience is untouched |
| `Orchestrator.CreateSampleResumeData` | server/server.js:499-543 | the resume's rows become exactly the sample rows (1 education, 1 experience, 2 skills) and the sample record is returned |
| `Orchestrator.FullUploadStoresParse` | server/server.js:418-484 | a successful full parse replaces the resume's rows by exactly the parsed records |
| `Orchestrator.EmptyUploadGivesSample` | server/server.js:487-494 | no text, or an empty one, gives the sample result and rows |
| `Orchestrator.BlankUploadKeepsRows` | server/server.js:414-490 | a whitespace-only text goes to basic parsing, which finds nothing: the rows stay and the result is empty |
| `Orchestrator.BlankParse` | server/server.js:546-609 | basic parsing of blank text inserts nothing and returns nothing |
| `Orchestrator.BlankLines` | server/server.js:550 | a blank text has no non-blank lines |
| `Orchestrator.BlankSkills` | server/server.js:577-586 | a blank text mentions none of the ten skills |
| `Orchestrator.BlankMentionsNone` | server/server.js:868-873 | white space mentions no word that starts with a letter |
| `Orchestrator.BlankHasNoWord` | server/server.js:579 | a word not starting with white space does not occur in white space |
| `Orchestrator.Completed` | server/server.js:444-467 | all `n` inserts complete exactly when none of them fails |
| `Cache.ApiCache.constructor` | server/server.js:211-216 | the cache starts empty |
| `Cache.ApiCache.ClearResumeCache` | server/server.js:219-224 | all three fields are unset |
| `Cache.ApiCache.CacheResumeData` | server/server.js:227-233 | the hit test on arrival: a hit exactly when the content entry and the stamp are set and fewer than 5000 ms have passed since the stamp; a hit serves the cached reply, a miss passes the request on to the route |
| `Cache.ApiCache.SendContent` | server/server.js:237-245 | when the route later sends its reply, an error-free reply for the content path is kept and stamped with the send time, whatever happened since the request arrived; nothing else changes |
| `Cache.ApiCache.ResumeCheck` | server/server.js:1207-1214 | the same hit test on the check entry |
| `Cache.ApiCache.CacheCheck` | server/server.js:1278-1279 | every check reply sent after a miss, errors included, is kept and moves the shared stamp (as at lines 1226, 1239 and 1294) |
| `Cache.ContentFromCleanReplies` | server/server.js:237-245 | under any interleaving of arrivals, sends and clears, cached content is the error-free reply some request for the content path sent |
| `Cache.ClearedMisses` | server/server.js:219-224 | after `clearResumeCache`, requests of either kind miss until some route sends a reply |
| `Cache.ClearRaceServesOldReply` | server/server.js:237-242 | a content request that missed before a clear sends after it, and its reply is then served to the next content request |
| `Cache.StaleContentServed` | server/server.js:231-241 | the content hit tests the shared stamp, and a check that misses moves it (lines 1227 and 1279), so content stored 7000 ms earlier is still served |
| `Cache.StampIsStoreTime` | server/server.js:238-242 | in the corrected cache, with one stamp per entry, the content stamp is the time the content was stored |
| `Cache.StampedServesFresh` | server/server.js:231 | in the corrected cache, content is served only while fewer than 5000 ms have passed since it was stored |
| `Cache.FixedServesAfterClear` | server/server.js:219-224 | the corrected cache holds only content sent by a request that arrived after the last clear |
| `Auth.Session.SetTokenWithExpiry` | client/src/context/AuthContext.jsx:35-43 | stores the token and now + 172 800 000 ms; the header becomes the bearer header |
| `Auth.Session.ClearToken` | client/src/context/AuthContext.jsx:55-60 | removes token, expiry and user from storage and drops the header |
| `Auth.Session.Logout` | client/src/context/AuthContext.jsx:251-273 | clears the token and forgets the user |
| `Auth.Session.constructor` | client/src/context/AuthContext.jsx:14-17 | no user and no header at first |
| `Auth.ValidUntilExpiry` | client/src/context/AuthContext.jsx:20-52 | a fresh token is expired exactly after now + 2 days (a strict comparison) |
| `Auth.ClearedIsExpired` | client/src/context/AuthContext.jsx:46-60 | after `clearToken` the token is expired, the session is not authenticated, no time is left and the text is "Expired" |
| `Auth.RemainingAfterLogin` | client/src/context/AuthContext.jsx:276-282 | signed in, the minutes left are the rounded time to expiry, at most 2880; with no user they are 0 |
| `Auth.ExpiredExactlyAtZero` | client/src/context/AuthContext.jsx:285-287 | "Expired" is shown exactly when 0 minutes are left |
| `Auth.FormattedWords` | client/src/context/AuthContext.jsx:285-299 | the text is its count and unit words joined by single blanks |
| `Auth.FormattedReadsBack` | client/src/context/AuthContext.jsx:285-299 | the text reads back as the minutes left: exactly below one day, and without the leftover minutes from one day on |
| `Auth.WordsReadBack` | client/src/context/AuthContext.jsx:288-298 | the words read back the same way |
| `Auth.ReadBackHours` | client/src/context/AuthContext.jsx:291-294 | 60-1439 minutes read back exactly |
| `Auth.ReadBackDays` | client/src/context/AuthContext.jsx:295-298 | from one day on, the minutes read back less the leftover minutes |
| `Auth.ReadCounts` | client/src/context/AuthContext.jsx:288-298 | one or two counts read back as their sum; the second only when positive |
| `Auth.ReadPair` | client/src/context/AuthContext.jsx:288-298 | a count and its unit read back as count times unit value |
| `Auth.UnitValues` | client/src/context/AuthContext.jsx:289-298 | "minute(s)", "hour(s)" and "day(s)" are worth 1, 60 and 1440, plural exactly when the count is not 1 |
| `Auth.JoinCounts` | client/src/context/AuthContext.jsx:291-298 | the second count is appended after one blank |
| `Auth.DaysAndHours` | client/src/context/AuthContext.jsx:296-297 | whole days and the hours after them make up all but the leftover minutes |
| `Auth.WordsUnblanked` | client/src/context/AuthContext.jsx:288-298 | no word holds a blank |
| `Projects.ProjectEditor.ValidateForm` | client/src/components/admin/ProjectsManagement.jsx:60-88 | one error, with the source's message, per field over its limit (255, 255, 255, 100, 500) and no other; succeeds exactly when all are within limits |
| `Projects.ProjectEditor.HandleAddTech` | client/src/components/admin/ProjectsManagement.jsx:124-132 | the list becomes `AddTech(list, input)`; the input is cleared only when something was added |
| `Projects.ProjectEditor.HandleRemoveTech` | client/src/components/admin/ProjectsManagement.jsx:134-139 | the list becomes `RemoveTech(list, tech)`; nothing else changes |
| `Projects.ProjectEditor.HandleSubmit` | client/src/components/admin/ProjectsManagement.jsx:147-165 | an invalid form sends nothing; a valid one sends the truncated form, which is the form itself |
| `Projects.ProjectEditor.constructor` | client/src/components/admin/ProjectsManagement.jsx:9-21 | an empty form, input and error set |
| `Projects.FormErrors` | client/src/components/admin/ProjectsManagement.jsx:61-84 | a field has an error exactly when it is over its limit, with that field's message |
| `Projects.TruncateUrl` | client/src/components/admin/ProjectsManagement.jsx:142-145 | the result is a prefix of the URL of length min(length, maxLength), so a short URL is unchanged |
| `Projects.ValidSubmitUnchanged` | client/src/components/admin/ProjectsManagement.jsx:151-165 | truncation leaves a valid form unchanged, and every truncated URL is at most 255 characters |
| `Projects.ParseTechnologies` | client/src/components/admin/ProjectsManagement.jsx:39-52 | for non-JSON text, non-empty trimmed pieces, no more than the comma-split pieces |
| `Projects.TechRoundTrip` | client/src/components/admin/ProjectsManagement.jsx:39-52 | when `JSON.parse` rejects the joined text, non-empty, trimmed, comma-free technologies written as "a, b, c" parse back to the list |
| `Projects.KeepTrimmed` | client/src/components/admin/ProjectsManagement.jsx:50 | kept pieces are non-empty and trimmed, never more than the pieces |
| `Projects.KeepTrimmedMembers` | client/src/components/admin/ProjectsManagement.jsx:50 | a word is kept exactly when it is non-empty and some piece trims to it |
| `Projects.KeepAll` | client/src/components/admin/ProjectsManagement.jsx:50 | pieces that trim to non-blank words keep exactly those words |
| `Projects.JoinedPieces` | client/src/components/admin/ProjectsManagement.jsx:50 | the comma-split pieces of "a, b, c" trim to the words |
| `Projects.AddTechKeeps` | client/src/components/admin/ProjectsManagement.jsx:124-132 | the old list stays a prefix; a non-blank trimmed input ends up present; at most one item is added; the list stays duplicate-free |
| `Projects.RemoveTech` | client/src/components/admin/ProjectsManagement.jsx:134-139 | the technology is gone and every other one stays exactly when it was there |
| `Projects.RemoveTechCounts` | client/src/components/admin/ProjectsManagement.jsx:134-139 | every other technology keeps its number of occurrences |
| `Projects.RemoveTechAppend` | client/src/components/admin/ProjectsManagement.jsx:134-139 | removal works piecewise, so the rest keep their relative order |
| `Projects.RemoveTechDistinct` | client/src/components/admin/ProjectsManagement.jsx:134-139 | a duplicate-free list stays duplicate-free |
| `Projects.RemoveUndoesAdd` | client/src/components/admin/ProjectsManagement.jsx:124-139 | removing a technology just added gives the old list back |
| `Projects.RemoveTechAbsent` | client/src/components/admin/ProjectsManagement.jsx:134-139 | removing an absent technology changes nothing |
| `Portfolio.ImageUrl` | client/src/components/Portfolio.jsx:345-359 | a placeholder exactly for an empty URL, captioned with the title or "Project Image"; every link starts with "http" |
| `Portfolio.ImageUrlIdempotent` | client/src/components/Portfolio.jsx:350-352 | an "http" URL is returned unchanged, and resolving a resolved link changes nothing |
| `Portfolio.ImageUrlServesUploads` | client/src/components/Portfolio.jsx:354-358 | any other URL becomes the server origin followed by an `/uploads/` path |
| `Portfolio.GroupSkills` | client/src/components/Portfolio.jsx:322-329 | a TypeError exactly when some skill's category names an inherited `Object.prototype` member, reported at the first such skill; otherwise one group per category, each holding that category's skills in input order, listed in `Object.entries` order |
| `Portfolio.ReduceSkills` | client/src/components/Portfolio.jsx:322-329 | the reduce loop for any set of inherited names: a TypeError at the first skill whose category is inherited, otherwise each category's skills in input order under its own key, listed in `Object.entries` order |
| `Portfolio.CategoryOf` | client/src/components/Portfolio.jsx:323 | the key is never empty ("Other" for a missing category) |
| `Portfolio.InCategory` | client/src/components/Portfolio.jsx:322-329 | a group holds only skills of its category, taken from the input |
| `Portfolio.Categories` | client/src/components/Portfolio.jsx:322-329 | the keys in creation order: distinct, and exactly the categories of the skills |
| `Portfolio.InsertIndex` | client/src/components/Portfolio.jsx:325 | creating an array-index key keeps the index keys ascending and adds just that key |
| `Portfolio.IndexKeys` | client/src/components/Portfolio.jsx:780 | the array-index keys of the object, ascending by numeric value, and no others |
| `Portfolio.NamedKeys` | client/src/components/Portfolio.jsx:780 | exactly the keys that are not array indices, each once |
| `Portfolio.EntriesOrder` | client/src/components/Portfolio.jsx:780 | `Object.entries` lists every created key, each once |
| `Portfolio.EntriesIndexFirst` | client/src/components/Portfolio.jsx:780 | every array-index key is listed before every other key, the index keys ascend, and the other keys follow in creation order |
| `Portfolio.NumeralListedFirst` | client/src/components/Portfolio.jsx:780 | categories created as "Web" then "2" are listed as "2" then "Web" |
| `Portfolio.GroupsCoverSkills` | client/src/components/Portfolio.jsx:322-329 | the group sizes add up to the number of skills |
| `Portfolio.SkillInItsGroup` | client/src/components/Portfolio.jsx:322-329 | each skill is in the group of its own category and in no other |
| `Portfolio.GroupStepKnown` | client/src/components/Portfolio.jsx:324-327 | a push onto an existing group keeps the grouping invariant |
| `Portfolio.GroupStepNew` | client/src/components/Portfolio.jsx:324-327 | creating a group and pushing keeps the grouping invariant |
| `Portfolio.InCategorySnoc` | client/src/components/Portfolio.jsx:327 | a new skill joins the end of its own group only |
| `Portfolio.EmptyCategory` | client/src/components/Portfolio.jsx:324-326 | a category no skill has has no group |
| `Portfolio.GroupSizesStep` | client/src/components/Portfolio.jsx:327 | one more skill adds one to the total |
| `Portfolio.KeptExactlyWithContent` | client/src/components/Portfolio.jsx:233-246 | `fetchResumeContent` keeps a reply exactly when `hasResumeContent` (lines 365-373) holds for it, and then the page has content exactly when the reply had |
| `Portfolio.PortfolioPage.FetchResumeContent` | client/src/components/Portfolio.jsx:229-251 | the stored content is the reply when it has content and null otherwise; loading ends |
| `Portfolio.PortfolioPage.OnIntersect` | client/src/components/Portfolio.jsx:169-175 | the visible set gains each intersecting entry's id |
| `Portfolio.PortfolioPage.constructor` | client/src/components/Portfolio.jsx:132-141 | no content and no visible section at first, and the resume is loading |
| `Portfolio.ObservedAddsIntersecting` | client/src/components/Portfolio.jsx:169-175 | the visible set only grows, and gains exactly the ids of intersecting entries |
| `Portfolio.AnimationStays` | client/src/components/Portfolio.jsx:361-363 | a section once given "animate-in" keeps it |
| `Text.SplitJoin` | server/server.js:1137-1162 | splitting a join on its delimiter gives the pieces back, each after the first with the padding in front |
| `Text.TrimIsTrimmed` | server/server.js:617 | `trim` leaves no white space at either end |
| `Text.TrimEmpty` | server/server.js:550 | a string trims to nothing exactly when it is all white space |
| `Text.IndexFrom` | server/server.js:740 | `indexOf` finds an occurrence |
| `Text.IndexFromLeftmost` | server/server.js:740 | `indexOf` finds the leftmost occurrence |
| `Text.FirstHitIsFirst` | server/server.js:654-675 | the first hit of a window comes from a line with no earlier hit |
| `Text.HarvestFrom` | server/server.js:775-777 | harvested items come from accepted lines, and nothing is harvested exactly when no line is accepted |
| `Text.FindFromFirst` | server/server.js:682-692 | the found index is the first accepted line |

## Left out

- I/O is not modelled: the PDF file read, `pdf-parse`, multer, MySQL
  connections, Express routing, CORS, JWT verification, bcrypt login,
  the network calls of the client and React rendering. The extracted
  text, the clock and the failing insert are inputs instead.
- A failing delete in full parsing is swallowed by the source and is
  not modelled. Basic parsing and sample data are modelled without
  storage faults; in the source such a fault propagates to the upload
  route.
- `ORDER BY` in the read queries, and the update and delete routes for
  education and experience, are not modelled.
- The manual-entry routes clear the response cache after a change; that
  call is modelled by `Cache.ApiCache.ClearResumeCache` but is not wired
  into `Storage.ResumeStore.AddEducation` or `AddExperience`.
- Strings are sequences of characters. Lengths count characters, not
  UTF-16 code units. Lower-casing is ASCII only, so non-ASCII letters
  are left as they are.
- A NULL or undefined column or field is modelled as "".
- Records built by basic parsing and sample data leave their missing
  columns as "", not NULL.
- The experience look-ahead starts at `j = i + 1` with the bound
  `j < Math.min(i + 10, lines.length)` (server/server.js:749), so it
  covers nine lines, and the model covers the same nine.
- `JSON.parse` is an input (`JsonOutcome`), so only its outcome is
  modelled. `JSON.stringify`, `btoa` and the SVG text of the
  placeholder picture are not modelled: a placeholder is represented by
  its caption.
- `Projects.TechRoundTrip`: holds only when `JSON.parse` rejects the
  joined text. Texts such as "42", "null" or "[1, 2]" are JSON and take
  the JSON branch, so they do not read back as the list.
- `Projects.ParseTechnologies`: only the non-JSON text branch has
  properties; the array and JSON branches return their input as the
  source does.
- `Portfolio.PortfolioPage.FetchResumeContent`: the reply rows use the
  stored row shapes, not the processed achievement and skill arrays of
  the content route. A failed request is modelled as `None`.
- The signed-in user object, token validation at start-up
  (`validateToken`, `initializeAuth`), the 30-second auto-logout timer
  and the backend logout call are not modelled.
- `Auth.FormattedReadsBack`: reading back uses a plain decimal reader
  written for the model, and says nothing about how other text reads.
- `Projects.ProjectEditor.ValidateForm`: the messages say "less than",
  but a field exactly at its limit passes; the model follows the
  comparison in the code.
- `handleShowModal`, `handleCloseModal`, `handleDelete`, alerts and
  loading flags of the project editor are not modelled. The request
  `handleSubmit` sends is not modelled either.
- `Portfolio.GroupSkills`: the model ends at the TypeError. What React
  does with the failed render is not modelled.
- The regular expressions are modelled only as far as these patterns
  use them. Each is written out by hand; general regex semantics are
  not modelled.

## Findings

| source | as written | input that shows it | evidently intended | confidence | as-written member | corrected member |
|---|---|---|---|---|---|---|
| server/server.js:241 | the content and check entries share one `lastUpdated` stamp, and a check that misses moves it (lines 1227 and 1279) | content stored at 1000 ms, a check request at 5000 ms, a content request at 8000 ms: the content is served 7000 ms after it was stored | each entry lives for 5000 ms from the time it was stored | medium, not executed | `Cache.StaleContentServed` | `Cache.StampedServesFresh` |
| server/server.js:238-242 | a content request that missed stores its reply when it is sent, after the route's await (line 1103), even when `clearResumeCache` ran in between (lines 1073, 295 and 364) | a content request arrives and misses; an upload finishes and clears the cache; the request then sends the rows it read before the upload; a content request 100 ms later is served those rows | after a clear, cached content comes only from requests that arrived after it | medium, not executed | `Cache.ClearRaceServesOldReply` | `Cache.FixedServesAfterClear` |

`Cache.ApiCache` follows the code as written. The corrected cache
(`FixedStep`) has one stamp per entry, and ignores a reply from a
request that arrived before the last clear; a server would read a
generation counter on arrival for that. It is proved to serve content
only while it is fresh (`Cache.StampIsStoreTime`,
`Cache.StampedServesFresh`), and only from requests that arrived after
the last clear (`Cache.FixedServesAfterClear`).
