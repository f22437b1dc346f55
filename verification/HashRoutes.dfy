/** The console's hash routes: parser (routes.ts) and printers (ConsoleShell.tsx). */
module HashRoutes {
  import opened Common
  import opened PercentCoding

  datatype Nav = Issues | Reviews | Repositories | Teams | Agents | Observe | DecisionChains | Settings

  datatype Route = Route(
    nav: Nav,
    issueId: Option<string>,
    roomId: Option<string>,
    observeSection: Option<string>,
    settingsSection: Option<string>)

  const NAVS := [Issues, Reviews, Repositories, Teams, Agents, Observe, DecisionChains, Settings]
  const OBSERVE_SECTIONS := ["trace", "usage", "logs", "alerts"]

  function NavHash(n: Nav): string {
    match n
    case Issues => "#/issues"
    case Reviews => "#/reviews"
    case Repositories => "#/repositories"
    case Teams => "#/teams"
    case Agents => "#/agents"
    case Observe => "#/observe"
    case DecisionChains => "#/decision-chains"
    case Settings => "#/settings"
  }

  /** A malformed segment is shown as it stands. */
  function SafeDecode(segment: string): string {
    match Decode(segment)
    case Some(s) => s
    case None => segment
  }

  /** The longest prefix without a slash or question mark. */
  function Segment(s: string): (r: string)
    ensures r <= s
  {
    if s == [] || s[0] == '/' || s[0] == '?' then [] else [s[0]] + Segment(s[1..])
  }

  /** What a pattern's "." leaves out. */
  const LINE_ENDS := {'\n', '\r', '\U{2028}', '\U{2029}'}

  /** An optional tail that begins with one of the given characters and fits on one line. */
  predicate Tail(rest: string, starts: set<char>) {
    rest == [] || (rest[0] in starts && forall c | c in rest[1..] :: c !in LINE_ENDS)
  }

  predicate After(h: string, prefix: string, starts: set<char>) {
    prefix <= h && Tail(h[|prefix|..], starts)
  }

  function RoomMatch(h: string): Option<(string, string)> {
    if !("/issues/" <= h) then None else
      var issue := Segment(h[8..]);
      var rest := h[8..][|Segment(h[8..])|..];
      if issue == [] || !("/rooms/" <= rest) then None else
        var room := Segment(rest[7..]);
        if room == [] then None else Some((issue, room))
  }

  function FirstNav(h: string, navs: seq<Nav>): Nav {
    if navs == [] then Issues
    else if NavHash(navs[0])[1..] <= h then navs[0]
    else FirstNav(h, navs[1..])
  }

  function ParseRoute(hash: string): Route {
    var h := if "#" <= hash then hash[1..] else hash;
    match RoomMatch(h)
    case Some((issue, room)) => Route(Issues, Some(SafeDecode(issue)), Some(SafeDecode(room)), None, None)
    case None => ParsePage(h)
  }

  /** Everything but a room. */
  function ParsePage(h: string): Route {
    if After(h, "/issues/list", {'/', '?', '#'}) then
      Route(Issues, None, None, None, None)
    else if h == "" || After(h, "/", {'?', '#'}) then
      Route(Issues, Some("new"), None, None, None)
    else if After(h, "/issues", {'?', '#'}) || After(h, "/issues/", {'?', '#'}) then
      Route(Issues, None, None, None, None)
    else if After(h, "/issues/new", {'/', '?', '#'}) then
      Route(Issues, Some("new"), None, None, None)
    else if "/issues/" <= h && Segment(h[8..]) != [] then
      Route(Issues, Some(SafeDecode(Segment(h[8..]))), None, None, None)
    else
      ParseElsewhere(h)
  }

  /** What is not under the issues. */
  function ParseElsewhere(h: string): Route {
    if "/settings/local-cli" <= h && (|h| == 19 || h[19] == '/' || h[19] == '?') then
      Route(Settings, None, None, None, Some("local-cli"))
    else if "/observe/" <= h && Segment(h[9..]) != [] then
      Route(Observe, None, None, if Segment(h[9..]) in OBSERVE_SECTIONS then Some(Segment(h[9..])) else None, None)
    else
      Route(FirstNav(h, NAVS), None, None, None, None)
  }

  function PrintIssue(issueId: string): string {
    "#/issues/" + issueId
  }

  function PrintRoom(issueId: string, roomId: string): string {
    "#/issues/" + issueId + "/rooms/" + Encode(roomId)
  }

  // --- Reading back what was printed ------------------------------------------------------

  predicate OneSegment(s: string) {
    s != [] && '/' !in s && '?' !in s
  }

  lemma {:induction false} SegmentOf(s: string, rest: string)
    requires '/' !in s && '?' !in s
    requires rest == [] || rest[0] == '/' || rest[0] == '?'
    ensures Segment(s + rest) == s
  {
    if s != [] {
      assert (s + rest)[1..] == s[1..] + rest;
      SegmentOf(s[1..], rest);
    }
  }

  lemma {:induction false} SegmentStops(s: string, rest: string)
    requires '/' in s || '?' in s
    ensures |Segment(s + rest)| < |s|
  {
    if s[0] != '/' && s[0] != '?' {
      assert (s + rest)[1..] == s[1..] + rest;
      SegmentStops(s[1..], rest);
    }
  }

  lemma Dropped(prefix: string, rest: string)
    ensures prefix <= prefix + rest && (prefix + rest)[|prefix|..] == rest
  {
  }

  lemma RoomMatchOf(issue: string, room: string)
    requires '/' !in issue && '?' !in issue && '/' !in room && '?' !in room
    ensures RoomMatch("/issues/" + (issue + ("/rooms/" + room)))
         == if issue == [] || room == [] then None else Some((issue, room))
  {
    var rest := "/rooms/" + room;
    Dropped("/issues/", issue + rest);
    SegmentOf(issue, rest);
    Dropped(issue, rest);
    Dropped("/rooms/", room);
    SegmentOf(room, []);
    assert room + [] == room;
  }

  lemma RoomMatchCut(issue: string, rest: string)
    requires '/' in issue || '?' in issue
    ensures var m := RoomMatch("/issues/" + (issue + rest)); m.Some? ==> |m.value.0| < |issue|
  {
    Dropped("/issues/", issue + rest);
    SegmentStops(issue, rest);
  }

  lemma SafeDecodeShrinks(s: string)
    ensures |SafeDecode(s)| <= |s|
  {
    DecodeShrinks(s);
  }

  lemma PrintedRoom(issueId: string, roomId: string)
    ensures "#" <= PrintRoom(issueId, roomId)
    ensures PrintRoom(issueId, roomId)[1..] == "/issues/" + (issueId + ("/rooms/" + Encode(roomId)))
  {
    Regroup('#', "/issues/", issueId, "/rooms/", Encode(roomId));
    assert ['#'] + "/issues/" == "#/issues/";
  }

  lemma Regroup(a: char, b: string, c: string, d: string, e: string)
    ensures ([a] + b + c + d + e)[1..] == b + (c + (d + e))
    ensures [a] <= [a] + b + c + d + e
  {
  }

  lemma SafeDecodeEncode(s: string)
    ensures SafeDecode(Encode(s)) == s
  {
    DecodeEncode(s);
  }

  lemma PagesHaveNoRoom(h: string)
    ensures ParsePage(h).roomId == None
  {
  }

  /** The printed room route reads back as the same pair exactly when the room id is not
      empty and the issue id is one path segment that decoding leaves alone. */
  lemma RoomRoundTrip(issueId: string, roomId: string)
    ensures ParseRoute(PrintRoom(issueId, roomId)) == Route(Issues, Some(issueId), Some(roomId), None, None)
       <==> OneSegment(issueId) && SafeDecode(issueId) == issueId && roomId != []
  {
    var hash := PrintRoom(issueId, roomId);
    PrintedRoom(issueId, roomId);
    var m := RoomMatch(hash[1..]);
    if m.None? {
      PagesHaveNoRoom(hash[1..]);
    }
    if '/' in issueId || '?' in issueId {
      RoomMatchCut(issueId, "/rooms/" + Encode(roomId));
      if m.Some? {
        SafeDecodeShrinks(m.value.0);
      }
    } else {
      EncodeHidesSeparators(roomId);
      assert Encode([]) == [];
      assert '/' !in Encode(roomId) && '?' !in Encode(roomId);
      RoomMatchOf(issueId, Encode(roomId));
      SafeDecodeEncode(roomId);
    }
  }

  /** In particular for every issue id without a percent sign and every room id but the empty one. */
  lemma PlainIssuesRoundTrip(issueId: string, roomId: string)
    requires OneSegment(issueId) && '%' !in issueId && roomId != []
    ensures ParseRoute(PrintRoom(issueId, roomId)) == Route(Issues, Some(issueId), Some(roomId), None, None)
  {
    DecodePlain(issueId);
    RoomRoundTrip(issueId, roomId);
  }

  /** The list, the empty path and the new-session page answer for this id before its own
      route is tried: it spells one of their names, alone or before a fragment sign. */
  predicate Shadowed(issueId: string) {
    || Reserved(issueId, "list")
    || Tail(issueId, {'?', '#'})
    || (Reserved(issueId, "new") && issueId != "new")
  }

  predicate Reserved(issueId: string, word: string) {
    word <= issueId && Tail(issueId[|word|..], {'/', '?', '#'})
  }

  /** A printed issue route reads back as its issue exactly when the id is one path segment
      that decoding leaves alone and no reserved page shadows it. */
  lemma IssueRoundTrip(issueId: string)
    ensures ParseRoute(PrintIssue(issueId)) == Route(Issues, Some(issueId), None, None, None)
       <==> OneSegment(issueId) && SafeDecode(issueId) == issueId && !Shadowed(issueId)
  {
    PrintedIssue(issueId);
    if OneSegment(issueId) {
      OneSegmentPage(issueId);
      if issueId == "new" {
        DecodePlain(issueId);
      }
    } else {
      ManySegmentsPage(issueId);
    }
  }

  /** An issue called list cannot be reopened by its route: the hash opens the list. */
  lemma ListOpensTheList()
    ensures ParseRoute(PrintIssue("list")) == Route(Issues, None, None, None, None)
  {
    PrintedIssue("list");
    assert OneSegment("list") by {
      assert "list" == ['l', 'i', 's', 't'];
    }
    OneSegmentPage("list");
    assert "list"[|"list"|..] == [];
  }

  lemma PrintedIssue(issueId: string)
    ensures "#" <= PrintIssue(issueId) && PrintIssue(issueId)[1..] == "/issues/" + issueId
  {
  }

  lemma OneSegmentPage(issueId: string)
    requires OneSegment(issueId)
    ensures RoomMatch("/issues/" + issueId).None?
    ensures ParsePage("/issues/" + issueId)
         == Route(Issues,
                  if Reserved(issueId, "list") || Tail(issueId, {'?', '#'}) then None
                  else if Reserved(issueId, "new") then Some("new")
                  else Some(SafeDecode(issueId)),
                  None, None, None)
  {
    hide Tail, Segment, SafeDecode;
    var h := "/issues/" + issueId;
    Dropped("/issues/", issueId);
    SegmentOf(issueId, []);
    assert issueId + [] == issueId;
    AfterIssues(issueId, "list", {'/', '?', '#'});
    AfterIssues(issueId, "new", {'/', '?', '#'});
    AfterIssues(issueId, "", {'?', '#'});
    assert "/issues/" + "list" == "/issues/list" && "/issues/" + "new" == "/issues/new";
    assert "/issues/" + "" == "/issues/";
    assert issueId[|""|..] == issueId;
    NotBare(issueId);
  }

  lemma PageIssue(h: string)
    ensures ParsePage(h).issueId in {None, Some("new")}
         || ("/issues/" <= h && ParsePage(h).issueId == Some(SafeDecode(Segment(h[8..]))))
  {
    hide After, Segment, SafeDecode;
  }

  lemma ManySegmentsPage(issueId: string)
    requires !OneSegment(issueId)
    ensures ParseRoute("#/issues/" + issueId) != Route(Issues, Some(issueId), None, None, None)
  {
    PrintedIssue(issueId);
    if issueId == [] {
      EmptyIssuePage();
    } else {
      hide ParsePage, Segment, SafeDecode;
      var h := "/issues/" + issueId;
      Dropped("/issues/", issueId);
      PageIssue(h);
      SegmentStops(issueId, []);
      assert issueId + [] == issueId;
      SafeDecodeShrinks(Segment(issueId));
      NewIsOneSegment();
    }
  }

  lemma NewIsOneSegment()
    ensures OneSegment("new")
  {
    assert "new" == ['n', 'e', 'w'];
  }

  lemma EmptyIssuePage()
    ensures ParseRoute("#/issues/").issueId != Some([])
  {
    hide Tail, Segment, SafeDecode;
    assert "#/issues/"[1..] == "/issues/";
    Dropped("/issues/", []);
    AfterIssues([], "", {'?', '#'});
    EmptyTail({'?', '#'});
    NotBare([]);
    assert "/issues/" + [] == "/issues/";
  }

  lemma EmptyTail(starts: set<char>)
    ensures Tail([], starts)
  {
  }

  lemma AfterIssues(issueId: string, word: string, starts: set<char>)
    ensures After("/issues/" + issueId, "/issues/" + word, starts)
       <==> word <= issueId && Tail(issueId[|word|..], starts)
  {
    hide Tail;
    var h, p := "/issues/" + issueId, "/issues/" + word;
    Dropped("/issues/", issueId);
    Dropped("/issues/", word);
    if p <= h {
      assert word == p[8..] <= h[8..] == issueId;
    }
    if word <= issueId {
      assert p <= h && h[|p|..] == issueId[|word|..];
    }
  }

  /** A path that goes on after "/issues" is not one of the bare pages. */
  lemma NotBare(issueId: string)
    ensures var h := "/issues/" + issueId; !After(h, "/", {'?', '#'}) && !After(h, "/issues", {'?', '#'})
  {
    var h := "/issues/" + issueId;
    assert h[1..][0] == 'i';
    assert h[7..][0] == '/';
  }

  // --- The navigation opens what it names -------------------------------------------------

  /** The entry a hash belongs to when no more special page claims it. */
  predicate Opens(h: string, n: Nav) {
    NavHash(n)[1..] <= h
  }

  /** No entry's path begins with another's, so the first match is the only one. */
  lemma NavsApart(h: string, n: Nav, m: Nav)
    requires Opens(h, n) && Opens(h, m)
    ensures n == m
  {
    assert |h| >= 5;
    NavStarts(h, n);
    NavStarts(h, m);
  }

  /** The second and fourth letters tell the entries apart. */
  lemma NavStarts(h: string, n: Nav)
    requires Opens(h, n)
    ensures |h| >= 6 && h[0] == '/'
    ensures n.Issues? <==> h[1] == 'i'
    ensures n.Reviews? <==> h[1] == 'r' && h[3] == 'v'
    ensures n.Repositories? <==> h[1] == 'r' && h[3] == 'p'
    ensures n.Teams? <==> h[1] == 't'
    ensures n.Agents? <==> h[1] == 'a'
    ensures n.Observe? <==> h[1] == 'o'
    ensures n.DecisionChains? <==> h[1] == 'd'
    ensures n.Settings? <==> h[1] == 's'
  {
    var p := NavHash(n)[1..];
    assert h[0] == p[0] && h[1] == p[1] && h[3] == p[3];
  }

  lemma {:induction false} FirstNavIs(h: string, navs: seq<Nav>, n: Nav)
    requires n in navs && Opens(h, n)
    ensures FirstNav(h, navs) == n
  {
    hide NavHash;
    if Opens(h, navs[0]) {
      NavsApart(h, navs[0], n);
    } else {
      FirstNavIs(h, navs[1..], n);
    }
  }

  /** Every entry of the navigation opens its own page and nothing inside it. */
  lemma NavOpens(n: Nav)
    ensures ParseRoute(NavHash(n)) == Route(n, None, None, None, None)
  {
    var h := NavHash(n)[1..];
    assert NavHash(n)[0] == '#';
    assert n in NAVS by {
      assert NAVS[0] == Issues && NAVS[1] == Reviews && NAVS[2] == Repositories && NAVS[3] == Teams;
      assert NAVS[4] == Agents && NAVS[5] == Observe && NAVS[6] == DecisionChains && NAVS[7] == Settings;
    }
    NavStarts(h, n);
    FirstNavIs(h, NAVS, n);
    NavPage(h, n);
  }

  lemma NavPage(h: string, n: Nav)
    requires h == NavHash(n)[1..]
    ensures RoomMatch(h).None?
    ensures ParsePage(h) == Route(if n.Issues? then Issues else FirstNav(h, NAVS), None, None, None, None)
  {
    hide FirstNav, Segment, SafeDecode, Tail;
    NavStarts(h, n);
    if n.Issues? {
      IssuesPage();
    } else {
      assert h[1] == 's' ==> |h| == 9;
      assert h[1] == 'o' ==> |h| == 8;
      hide NavHash;
      OtherPage(h);
    }
  }

  lemma IssuesPage()
    ensures RoomMatch("/issues").None? && ParsePage("/issues") == Route(Issues, None, None, None, None)
  {
    NotTheStart("/issues");
    EmptyTail({'?', '#'});
    assert "/issues"[|"/issues"|..] == [];
    hide Tail, Segment, SafeDecode, FirstNav;
  }

  lemma OtherPage(h: string)
    requires |h| >= 2 && h[1] !in {'i', '?', '#'} && (h[1] == 's' ==> |h| < 10) && (h[1] == 'o' ==> |h| < 9)
    ensures RoomMatch(h).None? && ParsePage(h) == Route(FirstNav(h, NAVS), None, None, None, None)
  {
    hide ParseElsewhere, FirstNav;
    PlainPage(h);
    AwayFromIssues(h);
  }

  /** Off the issues the hash opens a section or an entry. */
  lemma AwayFromIssues(h: string)
    requires |h| >= 2 && h[1] !in {'i', '?', '#'}
    ensures RoomMatch(h).None? && ParsePage(h) == ParseElsewhere(h)
  {
    hide After, Tail, Segment, SafeDecode, ParseElsewhere;
    NotTheStart(h);
    OffIssues(h);
  }

  lemma PlainPage(h: string)
    requires |h| >= 2 && (h[1] == 's' ==> |h| < 10) && (h[1] == 'o' ==> |h| < 9)
    ensures ParseElsewhere(h) == Route(FirstNav(h, NAVS), None, None, None, None)
  {
    hide Segment, FirstNav;
    OffSections(h);
  }

  lemma OffSections(h: string)
    requires |h| >= 2 && (h[1] == 's' ==> |h| < 10) && (h[1] == 'o' ==> |h| < 9)
    ensures !("/settings/local-cli" <= h) && !("/observe/" <= h)
  {
    assert "/settings/local-cli"[1] == 's' && "/observe/"[1] == 'o';
  }

  lemma NotTheStart(h: string)
    requires |h| >= 2 && h[1] != '?' && h[1] != '#'
    ensures h != "" && !After(h, "/", {'?', '#'})
  {
    assert h[1..][0] == h[1];
  }

  /** Nothing under "/issues" starts otherwise. */
  lemma OffIssues(h: string)
    requires |h| >= 2 && h[1] != 'i'
    ensures !("/issues/" <= h) && forall starts :: !After(h, "/issues", starts) && !After(h, "/issues/", starts)
    ensures forall starts :: !After(h, "/issues/list", starts) && !After(h, "/issues/new", starts)
  {
    assert "/issues"[1] == 'i' && "/issues/"[1] == 'i' && "/issues/list"[1] == 'i' && "/issues/new"[1] == 'i';
  }

  /** A known section of the observation page opens there, and an unknown one opens the page. */
  lemma SectionOpens(section: string)
    requires OneSegment(section)
    ensures ParseRoute("#/observe/" + section)
         == Route(Observe, None, None, if section in OBSERVE_SECTIONS then Some(section) else None, None)
  {
    var h := "/observe/" + section;
    assert ("#/observe/" + section)[1..] == h;
    Dropped("/observe/", section);
    SegmentOf(section, []);
    assert section + [] == section;
    assert h[1] == 'o';
    AwayFromIssues(h);
    OffSettings(h);
    hide Segment, FirstNav, ParsePage, RoomMatch;
  }

  /** And the local command line's page opens inside the settings. */
  lemma LocalCliOpens()
    ensures ParseRoute("#/settings/local-cli") == Route(Settings, None, None, None, Some("local-cli"))
  {
    var h := "/settings/local-cli";
    assert "#/settings/local-cli"[1..] == h;
    assert h[1] == 's' && |h| == 19;
    AwayFromIssues(h);
    hide ParsePage, RoomMatch;
  }

  lemma OffSettings(h: string)
    requires |h| >= 2 && h[1] != 's'
    ensures !("/settings/local-cli" <= h)
  {
    assert "/settings/local-cli"[1] == 's';
  }
}
