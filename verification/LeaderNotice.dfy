/** Reading a leader notice off the routes a room message quotes (leader_lane.py). */
module LeaderNotice {
  import opened Common
  import opened Uuids

  const ROUTE := "/api/v1/agent-actions/leader/assignments/"
  const UUID_LENGTH: nat := 36
  const PLAN_NOTICE := "plan"
  const REVIEW_NOTICE := "review"

  /** A decision route names a task and perhaps what is asked about it. */
  datatype Mention = Mention(taskId: string, action: Option<string>)

  datatype Notice = Notice(taskId: string, action: string)

  predicate LooksLikeUuid(s: string) {
    && |s| == UUID_LENGTH
    && forall i | 0 <= i < |s| :: if i in {8, 13, 18, 23} then s[i] == '-' else IsHex(s[i])
  }

  predicate RouteAt(body: string, i: nat) {
    && i + |ROUTE| + UUID_LENGTH <= |body|
    && body[i..i + |ROUTE|] == ROUTE
    && LooksLikeUuid(body[i + |ROUTE|..i + |ROUTE| + UUID_LENGTH])
  }

  /** The decision endpoint a route names, if it names one; the bare read does not. */
  function ActionAfter(tail: string): Option<string> {
    if "/" + PLAN_NOTICE <= tail then Some(PLAN_NOTICE)
    else if "/" + REVIEW_NOTICE <= tail then Some(REVIEW_NOTICE)
    else None
  }

  function MentionAt(body: string, i: nat): Mention
    requires RouteAt(body, i)
  {
    var end := i + |ROUTE| + UUID_LENGTH;
    Mention(Lower(body[i + |ROUTE|..end]), ActionAfter(body[end..]))
  }

  /** Leftmost, non-overlapping matches from position i on. */
  function Scan(body: string, i: nat): seq<Mention>
    decreases |body| - i
  {
    if i >= |body| then []
    else if RouteAt(body, i) then [MentionAt(body, i)] + Scan(body, i + |ROUTE| + UUID_LENGTH)
    else Scan(body, i + 1)
  }

  function Tasks(ms: seq<Mention>): set<string> {
    set m | m in ms :: m.taskId
  }

  function Actions(ms: seq<Mention>): set<string> {
    set m | m in ms && m.action.Some? :: m.action.value
  }

  /** One task and one action, or nothing: which routes say so and how often is immaterial. */
  ghost predicate Says(ms: seq<Mention>, n: Notice) {
    Tasks(ms) == {n.taskId} && Actions(ms) == {n.action}
  }

  ghost predicate Reads(body: string, r: Option<Notice>) {
    match r
    case Some(n) => Says(Scan(body, 0), n)
    case None => forall n :: !Says(Scan(body, 0), n)
  }

  method ParseLeaderNotice(body: string) returns (r: Option<Notice>)
    ensures Reads(body, r)
  {
    var taskIds: set<string>, actions: set<string> := {}, {};
    var i := 0;
    ghost var found: seq<Mention> := [];
    while i < |body|
      invariant Scan(body, 0) == found + Scan(body, i)
      invariant taskIds == Tasks(found) && actions == Actions(found)
    {
      if RouteAt(body, i) {
        var m := MentionAt(body, i);
        taskIds := taskIds + {m.taskId};
        if m.action.Some? {
          actions := actions + {m.action.value};
        }
        GrowSets(found, m);
        assert found + Scan(body, i) == found + [m] + Scan(body, i + |ROUTE| + UUID_LENGTH);
        found := found + [m];
        i := i + |ROUTE| + UUID_LENGTH;
      } else {
        i := i + 1;
      }
    }
    assert found == Scan(body, 0);
    if |taskIds| != 1 || |actions| != 1 {
      forall n ensures !Says(found, n) {
        assert |{n.taskId}| == 1 && |{n.action}| == 1;
      }
      return None;
    }
    var task :| task in taskIds;
    var action :| action in actions;
    Singleton(taskIds, task);
    Singleton(actions, action);
    r := Some(Notice(task, action));
  }

  lemma GrowSets(ms: seq<Mention>, m: Mention)
    ensures Tasks(ms + [m]) == Tasks(ms) + {m.taskId}
    ensures Actions(ms + [m]) == Actions(ms) + if m.action.Some? then {m.action.value} else {}
  {
    SetsOfJoin(ms, [m]);
    assert Tasks([m]) == {m.taskId};
    assert Actions([m]) == if m.action.Some? then {m.action.value} else {};
  }

  lemma Singleton(s: set<string>, x: string)
    requires |s| == 1 && x in s
    ensures s == {x}
  {
    SubsetSize({x}, s);
  }

  lemma SetsOfJoin(a: seq<Mention>, b: seq<Mention>)
    ensures Tasks(a + b) == Tasks(a) + Tasks(b)
    ensures Actions(a + b) == Actions(a) + Actions(b)
  {
    forall m ensures m in a + b <==> m in a || m in b {
    }
  }

  // --- What the text quotes ---------------------------------------------------------------

  /** The text quotes the route of this task at this place, followed by this. */
  predicate QuotesAt(body: string, pre: string, u: string, after: string, rest: string) {
    body == pre + ROUTE + u + after + rest && LooksLikeUuid(u)
  }

  ghost predicate Quotes(body: string, u: string, after: string) {
    exists pre, rest :: QuotesAt(body, pre, u, after, rest)
  }

  /** A route starts at k, names this task and is followed by this. */
  ghost predicate NamesAt(body: string, k: nat, u: string, after: string) {
    && RouteAt(body, k) && body[k + |ROUTE|..k + |ROUTE| + UUID_LENGTH] == u
    && after <= body[k + |ROUTE| + UUID_LENGTH..]
  }

  lemma QuotesNames(body: string, pre: string, u: string, after: string, rest: string)
    requires QuotesAt(body, pre, u, after, rest)
    ensures NamesAt(body, |pre|, u, after)
  {
    assert |u| == UUID_LENGTH;
    hide LooksLikeUuid;
    var k, m := |pre|, |ROUTE|;
    assert body[k..k + m] == ROUTE;
    assert body[k + m..k + m + UUID_LENGTH] == u;
    assert body[k + m + UUID_LENGTH..] == after + rest;
  }

  lemma NamesQuotes(body: string, k: nat, u: string, after: string)
    requires NamesAt(body, k, u, after)
    ensures QuotesAt(body, body[..k], u, after, body[k + |ROUTE| + UUID_LENGTH..][|after|..])
    ensures Quotes(body, u, after)
  {
    hide LooksLikeUuid;
    var end := k + |ROUTE| + UUID_LENGTH;
    var tail := body[end..];
    var pre, rest := body[..k], tail[|after|..];
    assert tail == after + rest;
    assert body == pre + body[k..k + |ROUTE|] + body[k + |ROUTE|..end] + tail;
    assert QuotesAt(body, pre, u, after, rest);
  }

  lemma QuotesIff(body: string, u: string, after: string)
    ensures Quotes(body, u, after) <==> exists k :: NamesAt(body, k, u, after)
  {
    hide NamesAt, QuotesAt;
    if pre, rest :| QuotesAt(body, pre, u, after, rest) {
      QuotesNames(body, pre, u, after, rest);
    }
    if k :| NamesAt(body, k, u, after) {
      NamesQuotes(body, k, u, after);
    }
  }

  /** Where the route has its slashes. */
  lemma RouteSlash(j: nat)
    requires j < |ROUTE|
    ensures ROUTE[j] == '/' <==> j in {0, 4, 7, 21, 28, 40}
  {
  }

  /** Two occurrences of the route do not overlap: no shift of it by less than its length,
      and none into the identifier, puts its slashes on slashes. */
  lemma NoOverlap(body: string, i: nat, k: nat)
    requires RouteAt(body, i) && RouteAt(body, k) && i < k
    ensures i + |ROUTE| + UUID_LENGTH <= k
  {
    var d := k - i;
    if d < |ROUTE| + UUID_LENGTH {
      assert |ROUTE| == 41;
      RouteSlash(0);
      RouteSlash(4);
      SlashInRoute(body, k, 0);
      SlashInRoute(body, k, 4);
      SlashOf(body, i, d);
      if d + 4 < |ROUTE| + UUID_LENGTH {
        SlashOf(body, i, d + 4);
      }
      assert false;
    }
  }

  lemma SlashInRoute(body: string, i: nat, j: nat)
    requires RouteAt(body, i) && j < |ROUTE|
    ensures body[i + j] == ROUTE[j]
  {
    hide LooksLikeUuid;
    assert body[i + j] == body[i..i + |ROUTE|][j];
  }

  lemma SlashOf(body: string, i: nat, j: nat)
    requires RouteAt(body, i) && j < |ROUTE| + UUID_LENGTH && body[i + j] == '/'
    ensures j in {0, 4, 7, 21, 28, 40}
  {
    if j < |ROUTE| {
      SlashInRoute(body, i, j);
      RouteSlash(j);
    } else {
      NoSlashInUuid(body[i + |ROUTE|..i + |ROUTE| + UUID_LENGTH], j - |ROUTE|);
    }
  }

  lemma NoSlashInUuid(u: string, j: nat)
    requires LooksLikeUuid(u) && j < |u|
    ensures u[j] != '/'
  {
  }

  /** So the scan misses none: it finds exactly the mentions at the places where the text
      quotes a route. */
  lemma {:induction false} ScanFindsAll(body: string, i: nat, m: Mention)
    ensures m in Scan(body, i) <==> exists k :: i <= k && RouteAt(body, k) && m == MentionAt(body, k)
    decreases |body| - i
  {
    if i < |body| {
      var next := if RouteAt(body, i) then i + |ROUTE| + UUID_LENGTH else i + 1;
      ScanFindsAll(body, next, m);
      hide LooksLikeUuid, MentionAt;
      forall k: nat | i < k < next && RouteAt(body, k) ensures false {
        NoOverlap(body, i, k);
      }
    }
  }

  /** The tasks a text names are those whose routes it quotes, whoever spells them how. */
  lemma TasksQuoted(body: string, t: string)
    ensures t in Tasks(Scan(body, 0)) <==> exists u :: Quotes(body, u, "") && Lower(u) == t
  {
    hide LooksLikeUuid, Scan, RouteAt, Quotes;
    if t in Tasks(Scan(body, 0)) {
      var m :| m in Scan(body, 0) && m.taskId == t;
      ScanFindsAll(body, 0, m);
      var k: nat :| RouteAt(body, k) && m == MentionAt(body, k);
      RouteFits(body, k);
      NamesQuotes(body, k, body[k + |ROUTE|..k + |ROUTE| + UUID_LENGTH], "");
    }
    if u :| Quotes(body, u, "") && Lower(u) == t {
      QuotesIff(body, u, "");
      var k: nat :| NamesAt(body, k, u, "");
      var m := MentionAt(body, k);
      ScanFindsAll(body, 0, m);
      assert m in Scan(body, 0) && m.taskId == t;
    }
  }

  lemma RouteFits(body: string, k: nat)
    requires RouteAt(body, k)
    ensures k + |ROUTE| + UUID_LENGTH <= |body|
  {
  }

  /** An action is among those named exactly when some quoted route is followed by it, and
      there are two of them. */
  lemma ActionsQuoted(body: string)
    ensures PLAN_NOTICE in Actions(Scan(body, 0)) <==> exists u :: Quotes(body, u, "/plan")
    ensures REVIEW_NOTICE in Actions(Scan(body, 0)) <==> exists u :: Quotes(body, u, "/review")
    ensures Actions(Scan(body, 0)) <= {PLAN_NOTICE, REVIEW_NOTICE}
  {
    hide LooksLikeUuid, Scan, RouteAt, Quotes, ActionAfter;
    ActionQuoted(body, PLAN_NOTICE, "/plan");
    ActionQuoted(body, REVIEW_NOTICE, "/review");
    forall a | a in Actions(Scan(body, 0)) ensures a in {PLAN_NOTICE, REVIEW_NOTICE} {
      var m :| m in Scan(body, 0) && m.action == Some(a);
      ScanFindsAll(body, 0, m);
      var k: nat :| RouteAt(body, k) && m == MentionAt(body, k);
      RouteFits(body, k);
      ActionsApart(body[k + |ROUTE| + UUID_LENGTH..]);
    }
  }

  /** What a route is followed by decides its action. */
  lemma ActionsApart(tail: string)
    ensures ActionAfter(tail) == Some(PLAN_NOTICE) <==> "/plan" <= tail
    ensures ActionAfter(tail) == Some(REVIEW_NOTICE) <==> "/review" <= tail
    ensures ActionAfter(tail) in {None, Some(PLAN_NOTICE), Some(REVIEW_NOTICE)}
  {
    assert "/" + PLAN_NOTICE == "/plan" && "/" + REVIEW_NOTICE == "/review";
    assert PLAN_NOTICE[0] == 'p' && REVIEW_NOTICE[0] == 'r';
    if "/plan" <= tail && "/review" <= tail {
      TailStarts(tail);
      assert false;
    }
  }

  lemma TailStarts(tail: string)
    ensures "/plan" <= tail ==> tail[1] == 'p'
    ensures "/review" <= tail ==> tail[1] == 'r'
  {
    if "/plan" <= tail {
      assert tail[1] == "/plan"[1];
    }
    if "/review" <= tail {
      assert tail[1] == "/review"[1];
    }
  }

  lemma ActionQuoted(body: string, a: string, word: string)
    requires (a == PLAN_NOTICE && word == "/plan") || (a == REVIEW_NOTICE && word == "/review")
    ensures a in Actions(Scan(body, 0)) <==> exists u :: Quotes(body, u, word)
  {
    hide LooksLikeUuid, Scan, RouteAt, Quotes, ActionAfter;
    if a in Actions(Scan(body, 0)) {
      var m :| m in Scan(body, 0) && m.action == Some(a);
      ScanFindsAll(body, 0, m);
      var k: nat :| RouteAt(body, k) && m == MentionAt(body, k);
      RouteFits(body, k);
      ActionsApart(body[k + |ROUTE| + UUID_LENGTH..]);
      NamesQuotes(body, k, body[k + |ROUTE|..k + |ROUTE| + UUID_LENGTH], word);
    }
    if u :| Quotes(body, u, word) {
      QuotesIff(body, u, word);
      var k: nat :| NamesAt(body, k, u, word);
      var m := MentionAt(body, k);
      RouteFits(body, k);
      ActionsApart(body[k + |ROUTE| + UUID_LENGTH..]);
      ScanFindsAll(body, 0, m);
      assert m in Scan(body, 0) && m.action == Some(a);
    }
  }

  /** The text asks this of this task, in terms of what it quotes: every route is this
      task's, at least one is there, and the one decision endpoint named is this one. */
  ghost predicate AsksFor(body: string, n: Notice) {
    && (exists u :: Quotes(body, u, ""))
    && (forall u :: Quotes(body, u, "") ==> Lower(u) == n.taskId)
    && n.action in {PLAN_NOTICE, REVIEW_NOTICE}
    && ((exists u :: Quotes(body, u, "/plan")) <==> n.action == PLAN_NOTICE)
    && ((exists u :: Quotes(body, u, "/review")) <==> n.action == REVIEW_NOTICE)
  }

  /** A text reads as a notice exactly when that is what it asks for. */
  lemma NoticeByText(body: string, n: Notice)
    ensures Reads(body, Some(n)) <==> AsksFor(body, n)
  {
    ActionsQuoted(body);
    assert PLAN_NOTICE[0] == 'p' && REVIEW_NOTICE[0] == 'r';
    hide Scan, Quotes, Lower;
    forall t ensures t in Tasks(Scan(body, 0)) <==> exists u :: Quotes(body, u, "") && Lower(u) == t {
      TasksQuoted(body, t);
    }
    if AsksFor(body, n) {
      var u :| Quotes(body, u, "");
      assert Lower(u) in Tasks(Scan(body, 0));
      assert Tasks(Scan(body, 0)) == {n.taskId};
      assert Actions(Scan(body, 0)) == {n.action};
    }
    if Says(Scan(body, 0), n) {
      assert n.taskId in Tasks(Scan(body, 0)) && n.action in Actions(Scan(body, 0));
      forall u | Quotes(body, u, "") ensures Lower(u) == n.taskId {
        assert Lower(u) in Tasks(Scan(body, 0));
      }
    }
  }

  /** The lower-case text a route's identifier is kept as is what reading it as a UUID
      prints, so two spellings are one task here exactly when they are one UUID. */
  lemma QuotedIdIsRead(u: string)
    requires LooksLikeUuid(u)
    ensures ParseUuid(u) == Some(Lower(u))
  {
    var h := Ungrouped(u);
    LowerGrouped(h);
    hide ParseUuid, Grouped, Lower;
    GroupedParses(h);
  }

  lemma Ungrouped(u: string) returns (h: string)
    requires LooksLikeUuid(u)
    ensures |h| == 32 && AllHex(h) && Grouped(h) == u
  {
    h := u[..8] + u[9..13] + u[14..18] + u[19..23] + u[24..];
    assert h[..8] == u[..8] && h[8..12] == u[9..13] && h[12..16] == u[14..18];
    assert h[16..20] == u[19..23] && h[20..] == u[24..];
    assert AllHex(u[..8]) && AllHex(u[9..13]) && AllHex(u[14..18]) && AllHex(u[19..23]) && AllHex(u[24..]);
  }

  /** The text quotes one route only, here. */
  ghost predicate OnlyRoute(body: string, pre: string, u: string, tail: string) {
    && QuotesAt(body, pre, u, "", tail)
    && forall pre', u', tail' :: QuotesAt(body, pre', u', "", tail') ==> |pre'| == |pre|
  }

  /** The one route of a text decides its reading: the plan endpoint asks for a plan, the
      review endpoint for a review, and the bare route for nothing. */
  lemma OneRouteDecides(body: string, pre: string, u: string, tail: string)
    requires OnlyRoute(body, pre, u, tail)
    ensures "/plan" <= tail ==> Reads(body, Some(Notice(Lower(u), PLAN_NOTICE)))
    ensures "/review" <= tail ==> Reads(body, Some(Notice(Lower(u), REVIEW_NOTICE)))
    ensures !("/plan" <= tail) && !("/review" <= tail) ==> Reads(body, None)
  {
    OneRouteQuotes(body, pre, u, tail, "");
    OneRouteQuotes(body, pre, u, tail, "/plan");
    OneRouteQuotes(body, pre, u, tail, "/review");
    ActionsApart(tail);
    assert PLAN_NOTICE[0] == 'p' && REVIEW_NOTICE[0] == 'r';
    hide Scan, Quotes, Lower, OnlyRoute, Reads, ActionAfter;
    NoticeByText(body, Notice(Lower(u), PLAN_NOTICE));
    NoticeByText(body, Notice(Lower(u), REVIEW_NOTICE));
    if "/plan" <= tail {
      assert Quotes(body, u, "") && Quotes(body, u, "/plan");
    } else if "/review" <= tail {
      assert Quotes(body, u, "") && Quotes(body, u, "/review");
    } else {
      forall n ensures !Reads(body, Some(n)) {
        NoticeByText(body, n);
      }
      NoReading(body);
    }
  }

  lemma NoReading(body: string)
    requires forall n :: !Reads(body, Some(n))
    ensures Reads(body, None)
  {
    hide Says, Scan;
    forall n ensures !Says(Scan(body, 0), n) {
      assert !Reads(body, Some(n));
    }
  }

  lemma OneRouteQuotes(body: string, pre: string, u: string, tail: string, word: string)
    requires OnlyRoute(body, pre, u, tail)
    ensures forall u' :: Quotes(body, u', word) <==> u' == u && word <= tail
  {
    OneRouteNames(body, pre, u, tail);
    hide OnlyRoute, NamesAt, Quotes, QuotesAt;
    forall u' ensures Quotes(body, u', word) <==> u' == u && word <= tail {
      QuotesIff(body, u', word);
      if k: nat :| NamesAt(body, k, u', word) {
        OneRouteHere(body, pre, u, tail, k, u', word);
      }
      if u' == u && word <= tail {
        NamesMore(body, |pre|, u, word);
      }
    }
  }

  lemma OneRouteNames(body: string, pre: string, u: string, tail: string)
    requires QuotesAt(body, pre, u, "", tail)
    ensures NamesAt(body, |pre|, u, "") && body[|pre| + |ROUTE| + UUID_LENGTH..] == tail
  {
    QuotesNames(body, pre, u, "", tail);
    hide LooksLikeUuid;
    assert body == (pre + ROUTE + u + "") + tail;
  }

  lemma NamesMore(body: string, k: nat, u: string, word: string)
    requires NamesAt(body, k, u, "") && word <= body[k + |ROUTE| + UUID_LENGTH..]
    ensures NamesAt(body, k, u, word)
  {
  }

  lemma OneRouteHere(body: string, pre: string, u: string, tail: string, k: nat, u': string, word: string)
    requires OnlyRoute(body, pre, u, tail) && NamesAt(body, k, u', word)
    ensures u' == u && word <= tail
  {
    OneRouteNames(body, pre, u, tail);
    NamesQuotes(body, k, u', "");
    hide LooksLikeUuid;
    assert |body[..k]| == |pre|;
  }

  // --- Joining messages by a line break -------------------------------------------------

  lemma {:induction false} ScanSuffix(a: string, b: string, j: nat)
    ensures Scan(a + b, |a| + j) == Scan(b, j)
    decreases |b| - j
  {
    var s := a + b;
    if j < |b| {
      SameRoute(a, b, j);
      if RouteAt(b, j) {
        ScanSuffix(a, b, j + |ROUTE| + UUID_LENGTH);
      } else {
        ScanSuffix(a, b, j + 1);
      }
    }
  }

  lemma SameRoute(a: string, b: string, j: nat)
    ensures RouteAt(a + b, |a| + j) <==> RouteAt(b, j)
    ensures RouteAt(b, j) ==> MentionAt(a + b, |a| + j) == MentionAt(b, j)
  {
    var s := a + b;
    var m := |ROUTE|;
    if j + m + UUID_LENGTH <= |b| {
      assert s[|a| + j..|a| + j + m] == b[j..j + m];
      assert s[|a| + j + m..|a| + j + m + UUID_LENGTH] == b[j + m..j + m + UUID_LENGTH];
      assert s[|a| + j + m + UUID_LENGTH..] == b[j + m + UUID_LENGTH..];
    }
  }

  lemma RouteIsOneLine(body: string, i: nat, k: nat)
    requires RouteAt(body, i) && i <= k < i + |ROUTE| + UUID_LENGTH
    ensures body[k] != '\n'
  {
    if k < i + |ROUTE| {
      assert body[k] == body[i..i + |ROUTE|][k - i] == ROUTE[k - i];
    } else {
      var uuid := body[i + |ROUTE|..i + |ROUTE| + UUID_LENGTH];
      assert body[k] == uuid[k - i - |ROUTE|];
    }
  }

  /** A line break after the text neither completes a route nor changes what it asks. */
  lemma LineBreakEnds(a: string, b: string, i: nat)
    requires i < |a|
    ensures RouteAt(a + "\n" + b, i) <==> RouteAt(a, i)
    ensures RouteAt(a, i) ==> MentionAt(a + "\n" + b, i) == MentionAt(a, i)
  {
    var s, m := a + "\n" + b, |ROUTE|;
    assert s[|a|] == '\n';
    if RouteAt(s, i) && i + m + UUID_LENGTH > |a| {
      RouteIsOneLine(s, i, |a|);
    }
    if i + m + UUID_LENGTH <= |a| {
      var end := i + m + UUID_LENGTH;
      assert s[i..i + m] == a[i..i + m] && s[i + m..end] == a[i + m..end];
      assert s[end..] == a[end..] + "\n" + b;
      PrefixBeforeBreak("/" + PLAN_NOTICE, a[end..], b);
      PrefixBeforeBreak("/" + REVIEW_NOTICE, a[end..], b);
    }
  }

  lemma PrefixBeforeBreak(word: string, tail: string, b: string)
    requires '\n' !in word
    ensures word <= tail + "\n" + b <==> word <= tail
  {
    var s := tail + "\n" + b;
    assert s[|tail|] == '\n';
  }

  lemma {:induction false} ScanJoin(a: string, b: string, i: nat)
    requires i <= |a|
    ensures Scan(a + "\n" + b, i) == Scan(a, i) + Scan(b, 0)
    decreases |a| - i
  {
    var s := a + "\n" + b;
    if i == |a| {
      assert !RouteAt(s, i) by {
        if RouteAt(s, i) {
          RouteIsOneLine(s, i, i);
        }
      }
      ScanSuffix(a + "\n", b, 0);
    } else {
      LineBreakEnds(a, b, i);
      if RouteAt(a, i) {
        ScanJoin(a, b, i + |ROUTE| + UUID_LENGTH);
      } else {
        ScanJoin(a, b, i + 1);
      }
    }
  }

  /** The scanner turns line-joined texts into joined lists of routes. */
  lemma RoutesOfJoinedText(a: string, b: string)
    ensures Scan(a + "\n" + b, 0) == Scan(a, 0) + Scan(b, 0)
  {
    ScanJoin(a, b, 0);
  }

  /** Two notices in one message are one notice if they agree and none otherwise. */
  lemma JoinedNotices(a: string, b: string, n: Notice, m: Notice, r: Option<Notice>)
    requires Reads(a, Some(n)) && Reads(b, Some(m)) && Reads(a + "\n" + b, r)
    ensures r == if n == m then Some(n) else None
  {
    RoutesOfJoinedText(a, b);
    SetsOfJoin(Scan(a, 0), Scan(b, 0));
    var both := Scan(a + "\n" + b, 0);
    assert Tasks(both) == {n.taskId, m.taskId} && Actions(both) == {n.action, m.action};
    if n == m {
      assert Says(both, n);
      if r.Some? {
        assert r.value.taskId in {n.taskId} && r.value.action in {n.action};
      }
    } else {
      assert n.taskId in Tasks(both) && m.taskId in Tasks(both);
      assert n.action in Actions(both) && m.action in Actions(both);
    }
  }

  /** Order and repetition do not matter: the reading of a text is fixed by the task ids
      and the actions its routes name. */
  lemma ReadingDependsOnSets(a: string, b: string, r: Option<Notice>)
    requires Tasks(Scan(a, 0)) == Tasks(Scan(b, 0)) && Actions(Scan(a, 0)) == Actions(Scan(b, 0))
    ensures Reads(a, r) <==> Reads(b, r)
  {
    forall n ensures Says(Scan(a, 0), n) <==> Says(Scan(b, 0), n) {
    }
  }

  /** A text has one reading. */
  lemma OneReading(body: string, r: Option<Notice>, s: Option<Notice>)
    requires Reads(body, r) && Reads(body, s)
    ensures r == s
  {
    if r.Some? && s.Some? {
      assert r.value.taskId in {s.value.taskId} && r.value.action in {s.value.action};
    }
  }
}
