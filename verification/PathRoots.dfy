/** What the prefix test on allowed paths means for directories (contracts.py, _within_roots). */
module PathRoots {
  import opened Common
  import opened Text
  import opened Envelope

  /** A path cut at its slashes. */
  function Components(s: string): (cs: seq<string>)
    ensures cs != []
  {
    if s == [] then [""]
    else
      var rest := Components(s[1..]);
      if s[0] == '/' then [""] + rest else [[s[0]] + rest[0]] + rest[1..]
  }

  /** The directory a normalised root names, with or without its closing slash. */
  function Directory(root: string): string {
    if root != [] && root[|root| - 1] == '/' then root[..|root| - 1] else root
  }

  /** Component by component, the path lies in the directory. */
  predicate Under(dir: string, path: string) {
    dir == [] || Components(dir) <= Components(path)
  }

  /** The prefix ends where a component does. */
  predicate AtBoundary(root: string, path: string)
    requires root <= path
  {
    root == [] || root[|root| - 1] == '/' || |path| == |root| || path[|root|] == '/'
  }

  lemma {:induction false} ComponentsGlue(a: string, b: string)
    ensures var ca, cb := Components(a), Components(b);
            Components(a + b) == ca[..|ca| - 1] + [ca[|ca| - 1] + cb[0]] + cb[1..]
  {
    if a == [] {
      assert a + b == b;
      assert [] + Components(b)[0] == Components(b)[0];
    } else {
      assert (a + b)[1..] == a[1..] + b && (a + b)[0] == a[0];
      ComponentsGlue(a[1..], b);
      PushSlash(a[0], Components(a[1..]), Components(b));
    }
  }

  function Glued(x: seq<string>, y: seq<string>): seq<string>
    requires x != [] && y != []
  {
    x[..|x| - 1] + [x[|x| - 1] + y[0]] + y[1..]
  }

  function Pushed(c: char, x: seq<string>): seq<string>
    requires x != []
  {
    if c == '/' then [""] + x else [[c] + x[0]] + x[1..]
  }

  /** Putting a character in front commutes with gluing something to the back. */
  lemma PushSlash(c: char, x: seq<string>, y: seq<string>)
    requires x != [] && y != []
    ensures Glued(Pushed(c, x), y) == Pushed(c, Glued(x, y))
  {
    if c != '/' && |x| == 1 {
      assert ([c] + x[0]) + y[0] == [c] + (x[0] + y[0]);
    }
  }

  lemma ComponentsJoin(a: string, b: string)
    ensures Components(a + "/" + b) == Components(a) + Components(b)
  {
    assert a + "/" + b == a + ("/" + b);
    ComponentsGlue(a, "/" + b);
    assert ("/" + b)[1..] == b;
    assert Components("/" + b) == [""] + Components(b);
    var last := Components(a)[|Components(a)| - 1];
    assert last + "" == last;
  }

  lemma {:induction false} OneComponent(s: string)
    requires '/' !in s
    ensures Components(s) == [s]
  {
    if s != [] {
      OneComponent(s[1..]);
      assert [s[0]] + s[1..] == s;
    }
  }

  /** A text that starts with another lies in the directory it names exactly when the prefix
      ends where a component does. */
  lemma PrefixIsUnderIff(root: string, path: string)
    requires root <= path
    ensures Under(Directory(root), path) <==> AtBoundary(root, path)
  {
    var dir := Directory(root);
    if root == [] || (|path| == |root| && root[|root| - 1] != '/') {
      assert root == path || root == [];
    } else if AtBoundary(root, path) {
      assert path[..|dir|] == dir && path[|dir|] == '/';
      var rest := path[|dir| + 1..];
      assert path == dir + "/" + rest;
      ComponentsJoin(dir, rest);
    } else {
      var rest := path[|root|..];
      assert path == root + rest && rest[0] != '/';
      ComponentsGlue(root, rest);
      var k := |Components(root)| - 1;
      assert Components(path)[k] == Components(root)[k] + Components(rest)[0];
      assert |Components(rest)[0]| > 0;
      assert Components(path)[k] != Components(root)[k];
    }
  }

  /** Where a component list leads from the top: nowhere, if it climbs out. */
  function Resolve(cs: seq<string>): Option<seq<string>> {
    if cs == [] then Some([]) else
      var front, last := Resolve(cs[..|cs| - 1]), cs[|cs| - 1];
      if front.None? || last == "" || last == "." then front
      else if last != ".." then Some(front.value + [last])
      else if front.value == [] then None
      else Some(front.value[..|front.value| - 1])
  }

  lemma {:induction false} ResolveStays(dir: seq<string>, more: seq<string>)
    requires Resolve(dir).Some? && ".." !in more
    ensures Resolve(dir + more).Some? && Resolve(dir).value <= Resolve(dir + more).value
  {
    if more == [] {
      assert dir + more == dir;
    } else {
      var front, last := more[..|more| - 1], more[|more| - 1];
      assert (dir + more)[..|dir + more| - 1] == dir + front;
      assert last in more;
      ResolveStays(dir, front);
    }
  }

  /** A text that starts with another stays in the directory it names when the prefix ends
      where a component does and nothing after the directory climbs. */
  lemma PrefixStaysInside(root: string, path: string)
    requires root != [] && root <= path && AtBoundary(root, path)
    requires Resolve(Components(Directory(root))).Some?
    requires forall k | |Components(Directory(root))| <= k < |Components(path)| :: Components(path)[k] != ".."
    ensures Resolve(Components(path)).Some?
    ensures Resolve(Components(Directory(root))).value <= Resolve(Components(path)).value
  {
    PrefixIsUnderIff(root, path);
    var dir, cs := Components(Directory(root)), Components(path);
    if Directory(root) == [] {
      assert Resolve(dir[..0]) == Some([]);
      assert cs == cs[..1] + cs[1..];
      assert root == "/" && cs[0] == "";
      assert cs[..1] == dir;
      ResolveStays(dir, cs[1..]);
    } else {
      assert cs == dir + cs[|dir|..];
      ResolveStays(dir, cs[|dir|..]);
    }
  }

  // --- The dots and slashes the normalisation drops ---------------------------------------------

  const LEADING := {'.', '/'}

  /** The dots and slashes at the head of a text. */
  function Lead(t: string): string {
    if t != [] && t[0] in LEADING then [t[0]] + Lead(t[1..]) else []
  }

  predicate OnlyLeading(lead: string) {
    forall c | c in lead :: c in LEADING
  }

  /** A text whose head is neither a dot nor a slash. */
  predicate Headed(x: string) {
    x != [] && x[0] !in LEADING
  }

  lemma {:induction false} LeadRejoins(t: string)
    ensures t == Lead(t) + LStripChars(t, LEADING)
  {
    if t != [] && t[0] in LEADING {
      LeadRejoins(t[1..]);
      assert t == [t[0]] + t[1..];
    }
  }

  lemma {:induction false} LeadIsLeading(t: string)
    ensures OnlyLeading(Lead(t))
  {
    if t != [] && t[0] in LEADING {
      LeadIsLeading(t[1..]);
    }
  }

  lemma LeadSplits(t: string)
    ensures t == Lead(t) + LStripChars(t, LEADING) && OnlyLeading(Lead(t))
    ensures LStripChars(t, LEADING) != [] ==> Headed(LStripChars(t, LEADING))
  {
    LeadRejoins(t);
    LeadIsLeading(t);
    HeadKept(t, LEADING);
  }

  /** The root as it was written, without its stars. */
  function Bare(root: string): string {
    RemoveSuffix(RemoveSuffix(Strip(root), "**"), "*")
  }

  lemma {:induction false} StarsBehind(lead: string, x: string)
    requires '*' !in lead
    ensures TrailingStars(lead + x) == TrailingStars(x)
  {
    if x == [] {
      assert lead + x == lead;
    } else {
      assert (lead + x)[..|lead + x| - 1] == lead + x[..|x| - 1];
      StarsBehind(lead, x[..|x| - 1]);
    }
  }

  /** A path and a root are each a lead followed by what the comparison sees. */
  lemma LeadsDropped(path: string, root: string)
    ensures Strip(path) == Lead(Strip(path)) + Candidate(path) && OnlyLeading(Lead(Strip(path)))
    ensures Bare(root) == Lead(Strip(root)) + NormalRoot(root) && OnlyLeading(Lead(Strip(root)))
    ensures Candidate(path) != [] ==> Headed(Candidate(path))
    ensures NormalRoot(root) != [] ==> Headed(NormalRoot(root))
  {
    LeadSplits(Strip(path));
    LeadSplits(Strip(root));
    NormalRootDropsStars(root);
    hide Strip, Lead, OnlyLeading, RemoveSuffix, TrailingStars;
    BareIsLeadAndRoot(root);
  }

  lemma BareIsLeadAndRoot(root: string)
    ensures Bare(root) == Lead(Strip(root)) + NormalRoot(root)
  {
    LeadSplits(Strip(root));
    hide Strip, Lead, LStripChars, OnlyLeading, RemoveSuffix;
    assert Strip(root) == Lead(Strip(root)) + Candidate(root);
    StarsDroppedBehind(Lead(Strip(root)), Candidate(root));
  }

  /** Removing trailing stars takes nothing from a lead in front. */
  lemma StarsDroppedBehind(lead: string, x: string)
    requires OnlyLeading(lead)
    ensures RemoveSuffix(RemoveSuffix(lead + x, "**"), "*") == lead + RemoveSuffix(RemoveSuffix(x, "**"), "*")
  {
    StarlessLead(lead);
    StarsBehind(lead, x);
    hide TrailingStars, RemoveSuffix, OnlyLeading;
    DropStars(lead + x);
    DropStars(x);
    CutBehind(lead, x, if TrailingStars(x) < 3 then TrailingStars(x) else 3);
  }

  lemma CutBehind(lead: string, x: string, k: nat)
    requires k <= |x|
    ensures (lead + x)[..|lead + x| - k] == lead + x[..|x| - k]
  {
  }

  lemma StarlessLead(lead: string)
    requires OnlyLeading(lead)
    ensures '*' !in lead
  {
  }

  // --- When an admitted path lies in the directory ----------------------------------------------

  /** A directory's components are a prefix of a path's only if its text is. */
  lemma {:induction false} UnderIsPrefix(dir: string, path: string)
    requires Components(dir) <= Components(path)
    ensures dir <= path
  {
    if dir != [] {
      var d, p := Components(dir), Components(path);
      assert d[0] == p[0];
      if dir[0] == '/' {
        assert |d| >= 2 && d[0] == [];
        assert path != [] && path[0] == '/';
        assert d[1..] <= p[1..] && p[1..] == Components(path[1..]) && d[1..] == Components(dir[1..]);
      } else {
        assert d[0] != [] && d[0][0] == dir[0];
        assert path != [] && path[0] == dir[0];
        TailComponents(dir);
        TailComponents(path);
        assert Components(dir[1..]) <= Components(path[1..]);
      }
      UnderIsPrefix(dir[1..], path[1..]);
    }
  }

  lemma TailComponents(s: string)
    requires s != [] && s[0] != '/'
    ensures Components(s[1..]) == [Components(s)[0][1..]] + Components(s)[1..]
  {
  }

  lemma ShorterLead(lr: string, d: string, lp: string, x: string)
    requires OnlyLeading(lp) && Headed(d) && |lr| < |lp|
    ensures !(lr + d <= lp + x)
  {
    assert (lr + d)[|lr|] == d[0] && (lp + x)[|lr|] == lp[|lr|] && lp[|lr|] in lp;
  }

  lemma LongerLead(lr: string, d: string, lp: string, x: string)
    requires OnlyLeading(lr) && Headed(x) && |lp| < |lr|
    ensures !(lr + d <= lp + x)
  {
    assert (lr + d)[|lp|] == lr[|lp|] && (lp + x)[|lp|] == x[0] && lr[|lp|] in lr;
  }

  lemma LeadsMatch(lr: string, d: string, lp: string, x: string)
    requires OnlyLeading(lr) && OnlyLeading(lp) && Headed(d) && Headed(x) && lr + d <= lp + x
    ensures lr == lp
  {
    if |lr| < |lp| {
      ShorterLead(lr, d, lp, x);
    } else if |lp| < |lr| {
      LongerLead(lr, d, lp, x);
    } else {
      assert lr == (lr + d)[..|lr|] == (lp + x)[..|lr|] == lp;
    }
  }

  /** Leads in front of a root and a path it is a prefix of: the path lies in the root's
      directory exactly when they are the same and the prefix ends where a component does. */
  lemma LeadsAndBoundary(lr: string, n: string, lp: string, x: string)
    requires OnlyLeading(lr) && OnlyLeading(lp) && Headed(n) && n <= x
    ensures Under(Directory(lr + n), lp + x) <==> lr == lp && AtBoundary(n, x)
  {
    DirectoryBehind(lr, n);
    if lr == lp {
      assert lr + n <= lp + x;
      PrefixIsUnderIff(lr + n, lp + x);
      assert (lr + n)[|lr + n| - 1] == n[|n| - 1];
      assert |x| > |n| ==> (lp + x)[|lr + n|] == x[|n|];
    } else if Under(Directory(lr + n), lp + x) {
      assert lr + Directory(n) != [];
      UnderIsPrefix(lr + Directory(n), lp + x);
      LeadsMatch(lr, Directory(n), lp, x);
    }
  }

  lemma DirectoryBehind(lead: string, n: string)
    requires Headed(n)
    ensures Directory(lead + n) == lead + Directory(n) && Headed(Directory(n))
  {
    assert (lead + n)[|lead + n| - 1] == n[|n| - 1];
    assert (lead + n)[..|lead + n| - 1] == lead + n[..|n| - 1];
  }

  /** Measured against the root as normalised: an admitted path lies in that directory exactly
      when nothing was dropped from its head and the prefix ends where a component does. */
  lemma UnderNormalRootIff(path: string, root: string)
    requires NormalRoot(root) != [] && NormalRoot(root) <= Candidate(path)
    ensures Under(Directory(NormalRoot(root)), Strip(path))
       <==> Lead(Strip(path)) == [] && AtBoundary(NormalRoot(root), Candidate(path))
  {
    LeadsDropped(path, root);
    LeadsAndBoundary([], NormalRoot(root), Lead(Strip(path)), Candidate(path));
    assert [] + NormalRoot(root) == NormalRoot(root);
  }

  /** Measured against the root as written: exactly when the same was dropped from both. */
  lemma UnderWrittenRootIff(path: string, root: string)
    requires NormalRoot(root) != [] && NormalRoot(root) <= Candidate(path)
    ensures Under(Directory(Bare(root)), Strip(path))
       <==> Lead(Strip(path)) == Lead(Strip(root)) && AtBoundary(NormalRoot(root), Candidate(path))
  {
    LeadsDropped(path, root);
    LeadsAndBoundary(Lead(Strip(root)), NormalRoot(root), Lead(Strip(path)), Candidate(path));
  }

  // --- Where an admitted path leads --------------------------------------------------------------

  predicate Absolute(s: string) {
    s != [] && s[0] == '/'
  }

  /** The path leads to a place in the directory: both from the same top, neither climbing
      out of it, and the directory's names come first. */
  predicate Inside(path: string, dir: string) {
    && Absolute(path) == Absolute(dir)
    && Resolve(Components(path)).Some? && Resolve(Components(dir)).Some?
    && Resolve(Components(dir)).value <= Resolve(Components(path)).value
  }

  /** The dots after a lead's last slash, which become part of the first name. */
  function Dots(lead: string): string {
    if lead == [] || lead[|lead| - 1] == '/' then [] else Dots(lead[..|lead| - 1]) + [lead[|lead| - 1]]
  }

  lemma {:induction false} DotsAtEnd(lead: string)
    ensures |Dots(lead)| <= |lead| && lead == lead[..|lead| - |Dots(lead)|] + Dots(lead) && '/' !in Dots(lead)
    ensures |Dots(lead)| < |lead| ==> lead[|lead| - |Dots(lead)| - 1] == '/'
  {
    if lead != [] && lead[|lead| - 1] != '/' {
      var front := lead[..|lead| - 1];
      DotsAtEnd(front);
      assert lead == front + [lead[|lead| - 1]];
      assert lead[..|lead| - |Dots(lead)|] == front[..|front| - |Dots(front)|];
    }
  }

  /** The components of a lead up to its last slash. */
  function Prelude(lead: string): seq<string> {
    DotsAtEnd(lead);
    var b := |lead| - |Dots(lead)|;
    if b == 0 then [] else Components(lead[..b - 1])
  }

  lemma LeadComponents(lead: string, x: string)
    ensures Components(lead + x) == Prelude(lead) + Components(Dots(lead) + x)
  {
    hide Components, Dots;
    DotsAtEnd(lead);
    var b, dots := |lead| - |Dots(lead)|, Dots(lead);
    if b == 0 {
      assert lead == dots;
    } else {
      assert lead[..b] == lead[..b - 1] + "/";
      CutAtSlash(lead, lead[..b - 1], dots, x);
    }
  }

  lemma CutAtSlash(lead: string, before: string, dots: string, x: string)
    requires lead == before + "/" + dots
    ensures Components(lead + x) == Components(before) + Components(dots + x)
  {
    hide Components;
    assert lead + x == before + "/" + (dots + x);
    ComponentsJoin(before, dots + x);
  }

  /** The components that name something. */
  function Names(cs: seq<string>): seq<string> {
    if cs == [] then [] else
      var front := Names(cs[..|cs| - 1]);
      if cs[|cs| - 1] == "" || cs[|cs| - 1] == "." then front else front + [cs[|cs| - 1]]
  }

  lemma {:induction false} NamesJoin(a: seq<string>, b: seq<string>)
    ensures Names(a + b) == Names(a) + Names(b)
  {
    if b == [] {
      assert a + b == a;
    } else {
      assert (a + b)[..|a + b| - 1] == a + b[..|b| - 1];
      NamesJoin(a, b[..|b| - 1]);
    }
  }

  lemma {:induction false} ResolveNames(a: seq<string>, more: seq<string>)
    requires ".." !in more
    ensures Resolve(a + more)
         == if Resolve(a).None? then None else Some(Resolve(a).value + Names(more))
  {
    if more == [] {
      assert a + more == a;
      assert Resolve(a).Some? ==> Resolve(a).value + [] == Resolve(a).value;
    } else {
      assert (a + more)[..|a + more| - 1] == a + more[..|more| - 1];
      assert more[|more| - 1] in more;
      ResolveNames(a, more[..|more| - 1]);
      if Resolve(a).Some? {
        var v, names, last := Resolve(a).value, Names(more[..|more| - 1]), more[|more| - 1];
        assert v + (names + [last]) == v + names + [last];
      }
    }
  }

  /** The first component of a text with a head, and the rest. */
  lemma FirstComponent(x: string)
    requires Headed(x)
    ensures Components(x)[0] != [] && Components(x)[0][0] == x[0]
  {
  }

  lemma Named(dots: string, x: string)
    requires Headed(x)
    ensures dots + Components(x)[0] !in ["", ".", ".."]
  {
    FirstComponent(x);
    var name := dots + Components(x)[0];
    assert name[|dots|] == x[0] != '.';
    assert name in ["", ".", ".."] ==> forall c | c in name :: c == '.';
  }

  /** Where a lead and a text with a head lead together. */
  lemma PlaceBehindLead(lead: string, x: string)
    requires Headed(x) && ".." !in Components(x)
    ensures Absolute(lead + x) == Absolute(lead)
    ensures Resolve(Components(lead + x))
         == if Resolve(Prelude(lead)).None? then None
            else Some(Resolve(Prelude(lead)).value + ([Dots(lead) + Components(x)[0]] + Names(Components(x)[1..])))
  {
    var dots, cs := Dots(lead), Components(x);
    var first, rest := dots + cs[0], cs[1..];
    DotsAtEnd(lead);
    LeadComponents(lead, x);
    ComponentsGlue(dots, x);
    OneComponent(dots);
    assert Components(dots + x) == [first] + rest;
    Named(dots, x);
    assert cs == [cs[0]] + rest;
    assert ".." !in [first] + rest;
    ResolveNames(Prelude(lead), [first] + rest);
    NamesJoin([first], rest);
    OneName(first);
  }

  lemma OneName(name: string)
    requires name != "" && name != "."
    ensures Names([name]) == [name]
  {
    assert [name][..0] == [];
    assert Names([name][..0]) == [];
  }

  /** Two leads start out from the same place: both from the top or neither, through the same
      names, and with the same dots before the first name. */
  predicate SameStart(lp: string, lr: string) {
    && Absolute(lp) == Absolute(lr)
    && Resolve(Prelude(lp)).Some? && Resolve(Prelude(lp)) == Resolve(Prelude(lr))
    && Dots(lp) == Dots(lr)
  }

  lemma {:induction false} ComponentChars(s: string, i: nat)
    requires i < |Components(s)|
    ensures forall c | c in Components(s)[i] :: c in s && c != '/'
  {
    if s != [] {
      var rest := Components(s[1..]);
      if s[0] == '/' {
        if i > 0 { ComponentChars(s[1..], i - 1); }
      } else {
        ComponentChars(s[1..], i);
        assert i == 0 ==> Components(s)[0] == [s[0]] + rest[0];
      }
    }
  }

  lemma {:induction false} ResolvedFrom(cs: seq<string>)
    ensures Resolve(cs).Some? ==> forall name | name in Resolve(cs).value :: name in cs
  {
    if cs != [] {
      var front := cs[..|cs| - 1];
      ResolvedFrom(front);
      assert cs == front + [cs[|cs| - 1]];
    }
  }

  /** Whatever a lead passes through is spelled with dots only. */
  lemma LeadNames(lead: string, name: string)
    requires OnlyLeading(lead) && Resolve(Prelude(lead)).Some? && name in Resolve(Prelude(lead)).value
    ensures DotsOnly(name)
  {
    DotsAtEnd(lead);
    ResolvedFrom(Prelude(lead));
    var b := |lead| - |Dots(lead)|;
    var i :| 0 <= i < |Prelude(lead)| && Prelude(lead)[i] == name;
    ComponentChars(lead[..b - 1], i);
    forall c | c in name ensures c == '.' {
      assert c in lead[..b - 1];
      assert c in lead;
    }
  }

  predicate DotsOnly(name: string) {
    forall c | c in name :: c == '.'
  }

  lemma EarlyName(a: seq<string>, x: string, more: seq<string>, b: seq<string>, after: seq<string>)
    requires !DotsOnly(x) && (forall name | name in b :: DotsOnly(name)) && |a| < |b|
    ensures !(a + ([x] + more) <= b + after)
  {
    assert (a + ([x] + more))[|a|] == x && (b + after)[|a|] == b[|a|] && b[|a|] in b;
  }

  lemma LateName(a: seq<string>, after: seq<string>, b: seq<string>, y: string, more: seq<string>)
    requires !DotsOnly(y) && (forall name | name in a :: DotsOnly(name)) && |b| < |a|
    ensures !(a + after <= b + ([y] + more))
  {
    assert (a + after)[|b|] == a[|b|] && a[|b|] in a && (b + ([y] + more))[|b|] == y;
  }

  /** Names of dots, then one name that is not: the parts are told apart. */
  lemma StartsMatch(a: seq<string>, x: string, xs: seq<string>, b: seq<string>, y: string, ys: seq<string>)
    requires !DotsOnly(x) && !DotsOnly(y) && xs <= ys
    requires (forall name | name in a :: DotsOnly(name)) && forall name | name in b :: DotsOnly(name)
    ensures a + ([x] + xs) <= b + ([y] + ys) <==> a == b && x == y
  {
    hide DotsOnly;
    var l, r := a + ([x] + xs), b + ([y] + ys);
    if |a| < |b| {
      EarlyName(a, x, xs, b, [y] + ys);
    } else if |b| < |a| {
      LateName(a, [x] + xs, b, y, ys);
    } else {
      assert l[..|a|] == a && r[..|a|] == b && l[|a|] == x && r[|a|] == y;
      if a == b && x == y {
        assert r[..|l|] == l;
      }
    }
  }

  /** Where an admitted path leads, measured against the root as written. When the prefix ends
      where a component does and nothing in the path climbs past its lead, the path stays
      inside the root exactly when the two leads start out from the same place. */
  lemma AdmittedStaysInsideIff(path: string, root: string)
    requires NormalRoot(root) != [] && NormalRoot(root) <= Candidate(path)
    requires AtBoundary(NormalRoot(root), Candidate(path)) && ".." !in Components(Candidate(path))
    ensures Inside(Strip(path), Directory(Bare(root))) <==> SameStart(Lead(Strip(path)), Lead(Strip(root)))
  {
    LeadsDropped(path, root);
    InsideBehindLeads(Lead(Strip(path)), Candidate(path), Lead(Strip(root)), NormalRoot(root));
  }

  lemma InsideBehindLeads(lp: string, x: string, lr: string, n: string)
    requires OnlyLeading(lp) && OnlyLeading(lr) && Headed(n) && n <= x && AtBoundary(n, x)
    requires ".." !in Components(x)
    ensures Inside(lp + x, Directory(lr + n)) <==> SameStart(lp, lr)
  {
    var d := Directory(n);
    DirectoryBehind(lr, n);
    DirectoryFirst(n, x);
    hide Components, Resolve, Names, Prelude, Dots, OnlyLeading, Absolute, AtBoundary;
    PlaceBehindLead(lp, x);
    PlaceBehindLead(lr, d);
    if Resolve(Prelude(lp)).Some? && Resolve(Prelude(lr)).Some? {
      var a, b := Resolve(Prelude(lr)).value, Resolve(Prelude(lp)).value;
      forall name | name in a ensures DotsOnly(name) { LeadNames(lr, name); }
      forall name | name in b ensures DotsOnly(name) { LeadNames(lp, name); }
      NamedWithMore(Dots(lr), d);
      NamedWithMore(Dots(lp), x);
      StartsMatch(a, Dots(lr) + Components(d)[0], Names(Components(d)[1..]),
                  b, Dots(lp) + Components(x)[0], Names(Components(x)[1..]));
      SameTail(Dots(lr), Dots(lp), Components(x)[0]);
    }
  }

  lemma NamedWithMore(dots: string, x: string)
    requires Headed(x)
    ensures !DotsOnly(dots + Components(x)[0])
  {
    FirstComponent(x);
    var name := dots + Components(x)[0];
    assert name[|dots|] == x[0] && name[|dots|] in name;
  }

  /** At a boundary the directory's components come first in the path's. */
  lemma DirectoryFirst(n: string, x: string)
    requires Headed(n) && n <= x && AtBoundary(n, x) && ".." !in Components(x)
    ensures Headed(Directory(n)) && Headed(x) && ".." !in Components(Directory(n))
    ensures Components(Directory(n))[0] == Components(x)[0]
    ensures Names(Components(Directory(n))[1..]) <= Names(Components(x)[1..])
  {
    DirectoryBehind([], n);
    assert [] + n == n && [] + Directory(n) == Directory(n);
    PrefixIsUnderIff(n, x);
    hide Components, Names;
    PrefixNames(Components(Directory(n)), Components(x));
  }

  lemma PrefixNames(d: seq<string>, x: seq<string>)
    requires d != [] && d <= x && ".." !in x
    ensures ".." !in d && d[0] == x[0] && Names(d[1..]) <= Names(x[1..])
  {
    hide Names;
    assert x == d + x[|d|..];
    assert x[1..] == d[1..] + x[|d|..];
    NamesJoin(d[1..], x[|d|..]);
  }

  lemma SameTail(a: string, b: string, x: string)
    ensures a + x == b + x <==> a == b
  {
    if a + x == b + x {
      assert |a| == |b|;
      assert a == (a + x)[..|a|] == b;
    }
  }

  // --- Paths that are admitted and lie elsewhere ------------------------------------------------

  /** Begins with no white space, dot or slash; ends with no white space, slash or star. */
  predicate Plain(s: string) {
    && s != [] && !IsSpace(s[0]) && s[0] != '.' && s[0] != '/'
    && !IsSpace(s[|s| - 1]) && s[|s| - 1] != '*' && s[|s| - 1] != '/'
  }

  lemma PlainIsNormal(s: string)
    requires Plain(s)
    ensures Candidate(s) == s && NormalRoot(s) == s
  {
    assert Candidate(s) == s;
    RemoveTwoStars(s);
    RemoveOneStar(s);
  }

  lemma PlainAdmits(root: string, path: string)
    requires Plain(root) && Plain(path) && root <= path
    ensures Admitted(path, [root])
  {
    PlainIsNormal(root);
    PlainIsNormal(path);
    OneRootAdmits(path, root);
  }

  /** Leads are not compared at all: put in front of a path or of a root they change nothing. */
  lemma LeadsAreIgnored(lead: string, path: string, root: string)
    requires OnlyLeading(lead) && Plain(path) && Plain(root)
    ensures Candidate(lead + path) == path && NormalRoot(lead + root) == root
    ensures root <= path ==> Admitted(lead + path, [root]) && Admitted(path, [lead + root])
  {
    PlainIsNormal(path);
    PlainIsNormal(root);
    CandidateBehind(lead, path);
    CandidateBehind(lead, root);
    hide Candidate, RemoveSuffix, OnlyLeading, Plain;
    assert NormalRoot(lead + root) == NormalRoot(root);
    hide NormalRoot;
    if root <= path {
      OneRootAdmits(lead + path, root);
      OneRootAdmits(path, lead + root);
    }
  }

  lemma OneRootAdmits(path: string, root: string)
    requires NormalRoot(root) <= Candidate(path)
    ensures Admitted(path, [root])
  {
    hide NormalRoot, Candidate;
    assert root in [root];
  }

  lemma CandidateBehind(lead: string, x: string)
    requires OnlyLeading(lead) && Plain(x)
    ensures Candidate(lead + x) == x
  {
    var t := lead + x;
    assert !IsSpace(t[0]) by {
      if lead != [] { assert t[0] == lead[0] && lead[0] in lead; }
    }
    assert t[|t| - 1] == x[|x| - 1];
    assert LStrip(t) == t && RStrip(t) == t;
    StrippedBehind(lead, x);
  }

  lemma {:induction false} StrippedBehind(lead: string, x: string)
    requires OnlyLeading(lead) && Headed(x)
    ensures LStripChars(lead + x, LEADING) == x
  {
    if lead == [] {
      assert lead + x == x;
    } else {
      assert (lead + x)[0] == lead[0] && lead[0] in lead && (lead + x)[1..] == lead[1..] + x;
      StrippedBehind(lead[1..], x);
    }
  }

  /** So a path that climbs before it starts is admitted, as ../src/x is under src, and leads
      nowhere inside. */
  lemma LeadingClimberIsAdmitted(root: string, path: string)
    requires Plain(root) && Plain(path) && root <= path
    ensures Admitted("../" + path, [root]) && Resolve(Components("../" + path)).None?
  {
    hide Resolve, Admitted;
    LeadsAreIgnored("../", path, root);
    hide Components, Plain;
    ClimbsOut(path);
  }

  lemma ClimbsOut(path: string)
    ensures Resolve(Components("../" + path)).None?
  {
    OneComponent("..");
    ComponentsJoin("..", path);
    assert ".." + "/" + path == "../" + path;
    ResolveTop();
    hide Components, Resolve;
    ResolveNever([".."], Components(path));
  }

  lemma {:induction false} ResolveNever(a: seq<string>, more: seq<string>)
    requires Resolve(a).None?
    ensures Resolve(a + more).None?
  {
    if more == [] {
      assert a + more == a;
    } else {
      assert (a + more)[..|a + more| - 1] == a + more[..|more| - 1];
      ResolveNever(a, more[..|more| - 1]);
    }
  }

  lemma ResolveTop()
    ensures Resolve([".."]) == None
  {
    assert [".."][..0] == [] && Resolve([".."][..0]) == Some([]);
    assert |".."| == 2 && |"."| == 1;
  }

  /** So is an absolute path, as /etc/passwd is under etc. */
  lemma AbsoluteIsAdmitted(root: string, path: string)
    requires Plain(root) && Plain(path) && root <= path
    ensures Admitted("/" + path, [root]) && Absolute("/" + path) && !Inside("/" + path, root)
  {
    LeadsAreIgnored("/", path, root);
    assert ("/" + path)[0] == '/';
  }

  /** So is whatever differs from the directory in its lead alone, as .git/config under git
      and github/x under .github. */
  lemma OtherLeadIsAdmitted(lr: string, root: string, lp: string, path: string)
    requires OnlyLeading(lr) && OnlyLeading(lp) && lr != lp
    requires Plain(root) && Plain(path) && root <= path
    ensures Admitted(lp + path, [lr + root]) && !Under(lr + root, lp + path)
  {
    PlainEnds(root);
    PlainHead(root);
    LeadsAreIgnored(lp, path, root);
    LeadsAreIgnored(lr, path, root);
    hide NormalRoot, Candidate, Plain, OnlyLeading, Under, AtBoundary, Admitted;
    OneRootAdmits(lp + path, lr + root);
    LeadsAndBoundary(lr, root, lp, path);
    DirectoryBehind(lr, root);
    assert Directory(root) == root;
  }

  lemma PlainHead(s: string)
    requires Plain(s)
    ensures Headed(s)
  {
  }

  /** A sibling that merely shares its first letters is admitted,
      as src/apiary is under src/api. */
  lemma SiblingIsAdmitted(root: string, path: string)
    requires Plain(root) && Plain(path) && root < path && path[|root|] != '/'
    ensures Admitted(path, [root]) && !Under(root, path)
  {
    hide Under, Plain, Admitted;
    PlainAdmits(root, path);
    PlainEnds(root);
    PrefixIsUnderIff(root, path);
  }

  lemma PlainEnds(s: string)
    requires Plain(s)
    ensures s != [] && s[|s| - 1] != '/'
  {
  }

  /** And so is a path that climbs out of the directory again, as src/../etc is under src. */
  lemma ClimberIsAdmitted(root: string, other: string, path: string)
    requires Plain(root) && Plain(path) && path == root + "/" + ".." + "/" + other
    requires '/' !in root && '/' !in other && other !in ["", ".", ".."]
    ensures Admitted(path, [root]) && Resolve(Components(path)) == Some([other])
  {
    assert root !in ["", ".", ".."];
    hide Plain, Admitted, Resolve;
    PlainAdmits(root, path);
    OneComponent(root);
    OneComponent("..");
    OneComponent(other);
    Three(root, "..", other);
    Climb(root, other);
  }

  lemma Three(a: string, b: string, c: string)
    requires Components(a) == [a] && Components(b) == [b] && Components(c) == [c]
    ensures Components(a + "/" + b + "/" + c) == [a, b, c]
  {
    hide Components;
    ComponentsJoin(a + "/" + b, c);
    ComponentsJoin(a, b);
  }

  lemma Climb(a: string, b: string)
    requires a !in ["", ".", ".."] && b !in ["", ".", ".."]
    ensures Resolve([a, "..", b]) == Some([b])
  {
    assert Resolve([]) == Some([]);
    hide Resolve;
    ResolveName([], a);
    assert [] + [a] == [a] && [a] + [".."] == [a, ".."] && [a, ".."] + [b] == [a, "..", b];
    ResolveUp([a]);
    assert [a][..0] == [] && [] + [b] == [b];
    ResolveName([a, ".."], b);
  }

  lemma ResolveName(cs: seq<string>, last: string)
    requires Resolve(cs).Some? && last !in ["", ".", ".."]
    ensures Resolve(cs + [last]) == Some(Resolve(cs).value + [last])
  {
    assert (cs + [last])[..|cs + [last]| - 1] == cs;
    assert last != "" && last != "." && last != "..";
  }

  lemma ResolveUp(cs: seq<string>)
    requires Resolve(cs).Some? && Resolve(cs).value != []
    ensures Resolve(cs + [".."]) == Some(Resolve(cs).value[..|Resolve(cs).value| - 1])
  {
    assert (cs + [".."])[..|cs + [".."]| - 1] == cs;
    assert |".."| == 2 && |"."| == 1;
  }
}
