/** The in-memory response cache of the resume endpoints
    (server/server.js:211-247, 1205-1282): one slot for the content reply,
    one for the availability-check reply, and ONE time stamp shared by
    both. Clock readings are inputs: `now` is read when a request arrives,
    `sent` when the reply goes out. A reply is a body and an error message,
    "" when there is none. */
module Cache {
  import opened Wrappers

  const CacheTimeout: int := 5000
  const ContentPath: string := "/api/resume/content"

  datatype Reply = Reply(body: string, error: string)

  datatype CacheState = CacheState(content: Option<Reply>, check: Option<Reply>, lastUpdated: Option<int>)

  const Empty: CacheState := CacheState(None, None, None)

  /** `entry && lastUpdated && now - lastUpdated < cacheTimeout`; a zero
      time stamp is falsy in the source, so it counts as unset. */
  predicate Live(entry: Option<Reply>, stamp: Option<int>, now: int) {
    entry.Some? && stamp.Some? && stamp.value != 0 && now - stamp.value < CacheTimeout
  }

  /** What reaches the cache, one event at a time. A request is two
      events: its arrival, where the hit test runs, and, when it missed,
      the sending of the route's reply, where the reply is stored. The
      route awaits the database in between, so other events (a clear, other
      requests) can come between the two. `arrival` is the index, in the
      run, of the request's arrival event. */
  datatype Event =
    | ContentArrive(now: int)
    | ContentSend(arrival: nat, path: string, reply: Reply, sent: int)
    | CheckArrive(now: int)
    | CheckSend(arrival: nat, reply: Reply, sent: int)
    | ClearCache

  predicate IsArrival(e: Event) {
    e.ContentArrive? || e.CheckArrive?
  }

  predicate IsSend(e: Event) {
    e.ContentSend? || e.CheckSend?
  }

  /** The wrapped `res.json` of a content request that missed: it keeps an
      error-free reply for the content path, stamped when it is sent. */
  function StoreContent(st: CacheState, path: string, reply: Reply, sent: int): (r: CacheState)
    ensures r.check == st.check
    ensures r.content == (if path == ContentPath && reply.error == "" then Some(reply) else st.content)
    ensures r.lastUpdated == (if path == ContentPath && reply.error == "" then Some(sent) else st.lastUpdated)
  {
    if path == ContentPath && reply.error == "" then st.(content := Some(reply), lastUpdated := Some(sent)) else st
  }

  /** The check route after a miss keeps every reply it sends, error
      replies included, and moves the shared stamp. */
  function StoreCheck(st: CacheState, reply: Reply, sent: int): (r: CacheState)
    ensures r.content == st.content && r.check == Some(reply) && r.lastUpdated == Some(sent)
  {
    st.(check := Some(reply), lastUpdated := Some(sent))
  }

  /** The cache after one event; an arrival only reads it. */
  function Step(st: CacheState, e: Event): CacheState {
    match e
    case ContentSend(_, path, reply, sent) => StoreContent(st, path, reply, sent)
    case CheckSend(_, reply, sent) => StoreCheck(st, reply, sent)
    case ClearCache => Empty
    case ContentArrive(_) => st
    case CheckArrive(_) => st
  }

  /** What an arrival gets from the cache: the cached reply on a hit;
      `None` when the request goes on to the route. */
  function Answer(st: CacheState, e: Event): (r: Option<Reply>)
    requires IsArrival(e)
    ensures e.ContentArrive? ==> (r.Some? <==> Live(st.content, st.lastUpdated, e.now))
    ensures e.CheckArrive? ==> (r.Some? <==> Live(st.check, st.lastUpdated, e.now))
    ensures r.Some? ==> r == (if e.ContentArrive? then st.content else st.check)
  {
    match e
    case ContentArrive(now) => if Live(st.content, st.lastUpdated, now) then st.content else None
    case CheckArrive(now) => if Live(st.check, st.lastUpdated, now) then st.check else None
  }

  /** The cache after a run of events, from the empty cache of server start. */
  function Run(es: seq<Event>): CacheState
    decreases |es|
  {
    if es == [] then Empty else Step(Run(es[..|es| - 1]), es[|es| - 1])
  }

  /** When the cached content was stored: the send time of the last
      content reply that was kept, unset after a clear. */
  function StoredAt(es: seq<Event>): Option<int>
    decreases |es|
  {
    if es == [] then None
    else
      var prev := es[..|es| - 1];
      match es[|es| - 1]
      case ContentSend(_, path, reply, sent) =>
        if path == ContentPath && reply.error == "" then Some(sent) else StoredAt(prev)
      case ClearCache => None
      case ContentArrive(_) => StoredAt(prev)
      case CheckArrive(_) => StoredAt(prev)
      case CheckSend(_, _, _) => StoredAt(prev)
  }

  /** `apiCache` and the code that reads and mutates it. */
  class ApiCache {
    var resumeContent: Option<Reply>
    var resumeCheck: Option<Reply>
    var lastUpdated: Option<int>

    function State(): CacheState
      reads this
    {
      CacheState(resumeContent, resumeCheck, lastUpdated)
    }

    constructor()
      ensures State() == Empty
    {
      resumeContent := None;
      resumeCheck := None;
      lastUpdated := None;
    }

    /** `clearResumeCache` (server/server.js:219-224). */
    method ClearResumeCache()
      modifies this
      ensures State() == Step(old(State()), ClearCache)
    {
      resumeContent := None;
      resumeCheck := None;
      lastUpdated := None;
    }

    /** The hit test of `cacheResumeData` (server/server.js:227-233): the
        cached reply while it is live; otherwise the request goes on to
        the route. */
    method CacheResumeData(now: int) returns (cached: Option<Reply>)
      ensures cached.Some? <==> Live(resumeContent, lastUpdated, now)
      ensures cached.Some? ==> cached == resumeContent
      ensures cached == Answer(State(), ContentArrive(now))
    {
      if resumeContent.Some? && lastUpdated.Some? && lastUpdated.value != 0 && now - lastUpdated.value < CacheTimeout {
        return resumeContent;
      }
      cached := None;
    }

    /** The wrapped `res.json` of a content request that missed
        (server/server.js:237-245), run when the route sends its reply. */
    method SendContent(path: string, reply: Reply, sent: int)
      modifies this
      ensures State() == StoreContent(old(State()), path, reply, sent)
    {
      if path == ContentPath && reply.error == "" {
        resumeContent := Some(reply);
        lastUpdated := Some(sent);
      }
    }

    /** The hit test of the check route (server/server.js:1207-1214). */
    method ResumeCheck(now: int) returns (cached: Option<Reply>)
      ensures cached.Some? <==> Live(resumeCheck, lastUpdated, now)
      ensures cached.Some? ==> cached == resumeCheck
      ensures cached == Answer(State(), CheckArrive(now))
    {
      if resumeCheck.Some? && lastUpdated.Some? && lastUpdated.value != 0 && now - lastUpdated.value < CacheTimeout {
        return resumeCheck;
      }
      cached := None;
    }

    /** Each store of the check route after a miss (server/server.js:1226-1227,
        1239-1240, 1278-1279, 1294-1295), all of them after an await. */
    method CacheCheck(reply: Reply, sent: int)
      modifies this
      ensures State() == StoreCheck(old(State()), reply, sent)
    {
      resumeCheck := Some(reply);
      lastUpdated := Some(sent);
    }
  }

  // ------------------------------------------------------------- lemmas

  /** Cached content is always the error-free reply some request for the
      content path sent, whatever the interleaving. */
  lemma {:induction false} ContentFromCleanReplies(es: seq<Event>)
    ensures Run(es).content.Some? ==>
              exists k :: 0 <= k < |es| && es[k].ContentSend? && es[k].path == ContentPath
                          && es[k].reply == Run(es).content.value && es[k].reply.error == ""
    decreases |es|
  {
    if es != [] {
      var prev := es[..|es| - 1];
      ContentFromCleanReplies(prev);
      if Run(es).content.Some? && Run(es).content == Run(prev).content {
        var k :| 0 <= k < |prev| && prev[k].ContentSend? && prev[k].path == ContentPath
                 && prev[k].reply == Run(prev).content.value && prev[k].reply.error == "";
        assert es[k] == prev[k];
      }
    }
  }

  /** After `clearResumeCache`, every request of either kind misses until
      some route sends a reply. */
  lemma {:induction false} ClearedMisses(es: seq<Event>, quiet: seq<Event>, now: int)
    requires forall k :: 0 <= k < |quiet| ==> !IsSend(quiet[k])
    ensures var st := Run(es + [ClearCache] + quiet);
            !Live(st.content, st.lastUpdated, now) && !Live(st.check, st.lastUpdated, now)
    decreases |quiet|
  {
    var all := es + [ClearCache] + quiet;
    if quiet == [] {
      assert all[..|es|] == es;
      assert Run(all) == Empty;
    } else {
      var init := quiet[..|quiet| - 1];
      ClearedMisses(es, init, now);
      assert all[..|all| - 1] == es + [ClearCache] + init;
      assert !IsSend(quiet[|quiet| - 1]);
    }
  }

  /** A reply the route read before a clear can still be kept after it: a
      content request misses at event 0, `clearResumeCache` runs at
      event 1, and the reply the request then sends is served at 200 ms to
      the next content request. */
  lemma ClearRaceServesOldReply()
    ensures var es := [ContentArrive(0), ClearCache, ContentSend(0, ContentPath, Reply("old", ""), 100)];
            Answer(Run(es[..1]), es[0]).None? && es[1].ClearCache? && es[2].arrival < 1
            && Answer(Run(es), ContentArrive(200)) == Some(Reply("old", ""))
  {
    var es := [ContentArrive(0), ClearCache, ContentSend(0, ContentPath, Reply("old", ""), 100)];
    assert es[..1] == [ContentArrive(0)] && [ContentArrive(0)][..0] == [];
    assert es[..2] == [ContentArrive(0), ClearCache];
    assert Run(es[..2]) == Empty;
  }

  /** The shared stamp, as written: a content reply stored at 1000 ms is
      still served at 8000 ms, 7000 ms after it was stored, because a check
      that missed at 5000 ms moved the stamp. */
  lemma StaleContentServed()
    ensures var es := [ContentArrive(1000), ContentSend(0, ContentPath, Reply("content", ""), 1000),
                       CheckArrive(5000), CheckSend(2, Reply("check", ""), 5000)];
            StoredAt(es) == Some(1000) && 8000 - StoredAt(es).value >= CacheTimeout
            && Answer(Run(es), ContentArrive(8000)) == Some(Reply("content", ""))
  {
    var c := Reply("content", "");
    var es := [ContentArrive(1000), ContentSend(0, ContentPath, c, 1000),
               CheckArrive(5000), CheckSend(2, Reply("check", ""), 5000)];
    assert es[..1][..0] == [] && es[..2][..1] == es[..1];
    assert es[..3][..2] == es[..2] && es[..|es| - 1] == es[..3];
    assert Run(es[..1]) == Empty;
    assert Run(es[..2]) == CacheState(Some(c), None, Some(1000));
    assert StoredAt(es[..2]) == Some(1000);
  }

  // ------------------------------------------------------ corrected cache

  /** The cache with a stamp per entry and the index of the last clear. A
      request whose arrival came before the last clear does not store its
      reply (a server would compare a generation counter read at arrival). */
  datatype FixedState = FixedState(content: Option<Reply>, check: Option<Reply>,
                                   contentUpdated: Option<int>, checkUpdated: Option<int>,
                                   clearedAt: int)

  const FixedEmpty: FixedState := FixedState(None, None, None, None, -1)

  /** A content reply the corrected cache keeps. */
  predicate FixedStores(st: FixedState, arrival: nat, path: string, reply: Reply) {
    st.clearedAt < arrival && path == ContentPath && reply.error == ""
  }

  /** Event `i` of a run on the corrected cache. */
  function FixedStep(st: FixedState, e: Event, i: nat): FixedState {
    match e
    case ContentSend(arrival, path, reply, sent) =>
      if FixedStores(st, arrival, path, reply) then st.(content := Some(reply), contentUpdated := Some(sent)) else st
    case CheckSend(arrival, reply, sent) =>
      if st.clearedAt < arrival then st.(check := Some(reply), checkUpdated := Some(sent)) else st
    case ClearCache => FixedEmpty.(clearedAt := i)
    case ContentArrive(_) => st
    case CheckArrive(_) => st
  }

  function FixedRun(es: seq<Event>): FixedState
    decreases |es|
  {
    if es == [] then FixedEmpty else FixedStep(FixedRun(es[..|es| - 1]), es[|es| - 1], |es| - 1)
  }

  /** A content arrival on the corrected cache hits while the content's
      own stamp is live. */
  predicate FixedHit(st: FixedState, now: int) {
    Live(st.content, st.contentUpdated, now)
  }

  function FixedStoredAt(es: seq<Event>): Option<int>
    decreases |es|
  {
    if es == [] then None
    else
      var prev := es[..|es| - 1];
      match es[|es| - 1]
      case ContentSend(arrival, path, reply, sent) =>
        if FixedStores(FixedRun(prev), arrival, path, reply) then Some(sent) else FixedStoredAt(prev)
      case ClearCache => None
      case ContentArrive(_) => FixedStoredAt(prev)
      case CheckArrive(_) => FixedStoredAt(prev)
      case CheckSend(_, _, _) => FixedStoredAt(prev)
  }

  /** With a stamp per entry, the content stamp is the time the cached
      content was stored, whatever checks happened since. */
  lemma {:induction false} StampIsStoreTime(es: seq<Event>)
    ensures FixedRun(es).contentUpdated == FixedStoredAt(es)
    decreases |es|
  {
    if es != [] {
      StampIsStoreTime(es[..|es| - 1]);
    }
  }

  /** With a stamp per entry, content is served from the cache only while
      fewer than 5000 ms have passed since it was stored. */
  lemma StampedServesFresh(es: seq<Event>, now: int)
    requires FixedHit(FixedRun(es), now)
    ensures FixedStoredAt(es).Some? && now - FixedStoredAt(es).value < CacheTimeout
  {
    StampIsStoreTime(es);
  }

  /** The corrected cache remembers where the last clear happened. */
  lemma {:induction false} ClearedAtIsLast(es: seq<Event>)
    ensures -1 <= FixedRun(es).clearedAt < |es|
    ensures FixedRun(es).clearedAt >= 0 ==> es[FixedRun(es).clearedAt].ClearCache?
    ensures forall j :: FixedRun(es).clearedAt < j < |es| ==> !es[j].ClearCache?
    decreases |es|
  {
    if es != [] {
      var prev := es[..|es| - 1];
      ClearedAtIsLast(prev);
      assert forall j :: 0 <= j < |prev| ==> es[j] == prev[j];
    }
  }

  /** The corrected cache only holds content sent by a request that
      arrived after the last clear: no clear happened between that
      request's arrival and now. */
  lemma {:induction false} FixedServesAfterClear(es: seq<Event>)
    ensures FixedRun(es).content.Some? ==>
              exists k :: 0 <= k < |es| && es[k].ContentSend? && es[k].reply == FixedRun(es).content.value
                          && forall j :: es[k].arrival <= j < |es| ==> !es[j].ClearCache?
    decreases |es|
  {
    if es != [] {
      var prev := es[..|es| - 1];
      var e := es[|es| - 1];
      FixedServesAfterClear(prev);
      ClearedAtIsLast(prev);
      assert forall j :: 0 <= j < |prev| ==> es[j] == prev[j];
      if FixedRun(es).content.Some? {
        if e.ContentSend? && FixedStores(FixedRun(prev), e.arrival, e.path, e.reply) {
          assert es[|es| - 1].reply == FixedRun(es).content.value;
        } else {
          assert FixedRun(es).content == FixedRun(prev).content;
          var k :| 0 <= k < |prev| && prev[k].ContentSend? && prev[k].reply == FixedRun(prev).content.value
                   && forall j :: prev[k].arrival <= j < |prev| ==> !prev[j].ClearCache?;
          assert es[k] == prev[k];
        }
      }
    }
  }
}
