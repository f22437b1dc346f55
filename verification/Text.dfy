/** The Python string operations the modelled code relies on. */
module Text {

  /** What str.strip() removes without an argument: Unicode white space. */
  predicate IsSpace(c: char) {
    || '\t' <= c <= '\r' || '\U{1C}' <= c <= ' ' || c == '\U{85}' || c == '\U{A0}' || c == '\U{1680}'
    || '\U{2000}' <= c <= '\U{200A}' || c == '\U{2028}' || c == '\U{2029}' || c == '\U{202F}'
    || c == '\U{205F}' || c == '\U{3000}'
  }

  function LStripChars(s: string, drop: set<char>): string {
    if s != [] && s[0] in drop then LStripChars(s[1..], drop) else s
  }

  function LStrip(s: string): string {
    if s != [] && IsSpace(s[0]) then LStrip(s[1..]) else s
  }

  function RStrip(s: string): string {
    if s != [] && IsSpace(s[|s| - 1]) then RStrip(s[..|s| - 1]) else s
  }

  function Strip(s: string): string {
    RStrip(LStrip(s))
  }

  function RemoveSuffix(s: string, suffix: string): string {
    if |suffix| <= |s| && s[|s| - |suffix|..] == suffix then s[..|s| - |suffix|] else s
  }

  /** The text before the first occurrence of the separator, or all of it. */
  function BeforeFirst(s: string, sep: char): string {
    if s == [] || s[0] == sep then [] else [s[0]] + BeforeFirst(s[1..], sep)
  }

  predicate AllSpace(s: string) {
    forall c | c in s :: IsSpace(c)
  }

  /** Nothing to strip at either end. */
  predicate Bare(s: string) {
    s == [] || (!IsSpace(s[0]) && !IsSpace(s[|s| - 1]))
  }

  /** strip() leaves nothing to strip. */
  lemma StripIsBare(s: string)
    ensures Bare(Strip(s))
  {
    LStripFirst(s);
    RStripLast(LStrip(s));
  }

  lemma {:induction false} LStripFirst(s: string)
    ensures LStrip(s) == [] || !IsSpace(LStrip(s)[0])
  {
    if s != [] && IsSpace(s[0]) {
      LStripFirst(s[1..]);
    }
  }

  lemma {:induction false} RStripLast(s: string)
    ensures RStrip(s) <= s && (RStrip(s) == [] || !IsSpace(RStrip(s)[|RStrip(s)| - 1]))
  {
    if s != [] && IsSpace(s[|s| - 1]) {
      RStripLast(s[..|s| - 1]);
    }
  }

  /** What is between the white space at the ends is what strip() leaves. */
  lemma StripOf(before: string, core: string, after: string)
    requires AllSpace(before) && Bare(core) && AllSpace(after)
    ensures Strip(before + core + after) == core
  {
    assert before + core + after == before + (core + after);
    LStripOf(before, core + after);
    if core == [] {
      assert core + after == after + [];
      LStripOf(after, []);
    } else {
      assert LStrip(core + after) == core + after;
      RStripOf(core, after);
    }
  }

  lemma {:induction false} LStripOf(before: string, s: string)
    requires AllSpace(before)
    ensures LStrip(before + s) == LStrip(s)
  {
    if before == [] {
      assert before + s == s;
    } else {
      assert (before + s)[1..] == before[1..] + s;
      LStripOf(before[1..], s);
    }
  }

  lemma {:induction false} RStripOf(core: string, after: string)
    requires core != [] && Bare(core) && AllSpace(after)
    ensures RStrip(core + after) == core
  {
    if after == [] {
      assert core + after == core;
    } else {
      assert (core + after)[..|core + after| - 1] == core + after[..|after| - 1];
      assert (core + after)[|core + after| - 1] == after[|after| - 1];
      RStripOf(core, after[..|after| - 1]);
    }
  }

  /** partition(sep)[0] of a text that begins with a separator-free part. */
  lemma {:induction false} BeforeFirstOf(a: string, sep: char, b: string)
    requires sep !in a
    ensures BeforeFirst(a + [sep] + b, sep) == a
  {
    var s := a + [sep] + b;
    if a != [] {
      assert s[1..] == a[1..] + [sep] + b;
      BeforeFirstOf(a[1..], sep, b);
    }
  }
}
