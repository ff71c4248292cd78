/** The few string operations the program relies on, over ASCII text. */
module Text {
  predicate IsSpace(c: char) {
    c == ' ' || c == '\t' || c == '\n' || c == '\r' || c == '\U{000B}' || c == '\U{000C}'
  }

  function TrimLeft(s: string): string {
    if s != "" && IsSpace(s[0]) then TrimLeft(s[1..]) else s
  }

  function TrimRight(s: string): string {
    if s != "" && IsSpace(s[|s| - 1]) then TrimRight(s[..|s| - 1]) else s
  }

  function TrimSpace(s: string): string {
    TrimRight(TrimLeft(s))
  }

  predicate Blank(s: string) { forall i | 0 <= i < |s| :: IsSpace(s[i]) }

  lemma {:induction false} TrimLeftStrips(s: string) returns (pre: string)
    ensures Blank(pre) && s == pre + TrimLeft(s) && (TrimLeft(s) == "" || !IsSpace(TrimLeft(s)[0]))
  {
    if s != "" && IsSpace(s[0]) {
      pre := TrimLeftStrips(s[1..]);
      pre := [s[0]] + pre;
      assert s == [s[0]] + s[1..];
    } else {
      pre := "";
    }
  }

  lemma {:induction false} TrimRightStrips(s: string) returns (post: string)
    ensures Blank(post) && s == TrimRight(s) + post && (TrimRight(s) == "" || !IsSpace(TrimRight(s)[|TrimRight(s)| - 1]))
  {
    if s != "" && IsSpace(s[|s| - 1]) {
      var init := s[..|s| - 1];
      post := TrimRightStrips(init);
      post := post + [s[|s| - 1]];
      assert s == init + [s[|s| - 1]];
    } else {
      post := "";
    }
  }

  /** Trimming takes white space off both ends and leaves none there. */
  lemma TrimStrips(s: string) returns (pre: string, post: string)
    ensures Blank(pre) && Blank(post) && s == pre + TrimSpace(s) + post
    ensures var t := TrimSpace(s); t != "" ==> !IsSpace(t[0]) && !IsSpace(t[|t| - 1])
  {
    pre := TrimLeftStrips(s);
    post := TrimRightStrips(TrimLeft(s));
    var l, t := TrimLeft(s), TrimSpace(s);
    assert l == t + post;
    assert s == pre + (t + post) == pre + t + post;
    assert t != "" ==> t[0] == l[0];
  }

  /** What has white space around a core that neither starts nor ends with any is trimmed to that core. */
  lemma TrimFinds(pre: string, core: string, post: string)
    requires Blank(pre) && Blank(post) && core != "" && !IsSpace(core[0]) && !IsSpace(core[|core| - 1])
    ensures TrimSpace(pre + core + post) == core
  {
    TrimLeftSkips(pre, core + post);
    assert pre + core + post == pre + (core + post);
    assert (core + post)[0] == core[0];
    TrimRightSkips(core, post);
  }

  lemma {:induction false} TrimLeftSkips(pre: string, s: string)
    requires Blank(pre)
    ensures TrimLeft(pre + s) == TrimLeft(s)
  {
    if pre == "" {
      assert pre + s == s;
    } else {
      assert (pre + s)[1..] == pre[1..] + s;
      TrimLeftSkips(pre[1..], s);
    }
  }

  lemma {:induction false} TrimRightSkips(s: string, post: string)
    requires Blank(post)
    ensures TrimRight(s + post) == TrimRight(s)
  {
    if post == "" {
      assert s + post == s;
    } else {
      var all := s + post;
      assert all[..|all| - 1] == s + post[..|post| - 1];
      TrimRightSkips(s, post[..|post| - 1]);
    }
  }

  lemma BlankIsTrimmedAway(s: string)
    ensures TrimSpace(s) == "" <==> Blank(s)
  {
    var pre, post := TrimStrips(s);
    if TrimSpace(s) == "" {
      assert s == pre + post;
    } else {
      var t := TrimSpace(s);
      assert s[|pre|] == t[0];
    }
  }

  function ToLower(s: string): (t: string)
    ensures |t| == |s|
  {
    if s == "" then ""
    else [if 'A' <= s[0] <= 'Z' then ((s[0] as int) + 32) as char else s[0]] + ToLower(s[1..])
  }

  // The same letter, in either case, or the same character.
  ghost predicate SameLetter(c: char, d: char) {
    || c == d
    || ('A' <= c <= 'Z' && d as int == c as int + 32)
    || ('A' <= d <= 'Z' && c as int == d as int + 32)
  }

  ghost predicate SameUpToCase(s: string, t: string) {
    |s| == |t| && forall i | 0 <= i < |s| :: SameLetter(s[i], t[i])
  }

  /** Two texts have one lower-case form exactly when they differ in the case of letters at most. */
  lemma {:induction false} LowerIgnoresCase(s: string, t: string)
    ensures ToLower(s) == ToLower(t) <==> SameUpToCase(s, t)
  {
    if |s| == |t| && s != "" {
      LowerIgnoresCase(s[1..], t[1..]);
      assert ToLower(s)[1..] == ToLower(s[1..]) && ToLower(t)[1..] == ToLower(t[1..]);
      assert SameUpToCase(s, t) <==> SameLetter(s[0], t[0]) && SameUpToCase(s[1..], t[1..]) by {
        assert forall i | 0 <= i < |s[1..]| :: s[1..][i] == s[i + 1] && t[1..][i] == t[i + 1];
        if SameLetter(s[0], t[0]) && SameUpToCase(s[1..], t[1..]) {
          forall i | 0 <= i < |s| ensures SameLetter(s[i], t[i]) {
            if i > 0 { assert s[i] == s[1..][i - 1] && t[i] == t[1..][i - 1]; }
          }
        }
      }
      assert ToLower(s)[0] == ToLower(t)[0] <==> SameLetter(s[0], t[0]);
      assert ToLower(s) == [ToLower(s)[0]] + ToLower(s)[1..] && ToLower(t) == [ToLower(t)[0]] + ToLower(t)[1..];
    }
  }

  lemma {:induction false} LowerOf(s: string, t: string)
    ensures ToLower(s + t) == ToLower(s) + ToLower(t)
  {
    if s == "" {
      assert s + t == t;
    } else {
      assert (s + t)[1..] == s[1..] + t;
      LowerOf(s[1..], t);
    }
  }

  function TrimSuffix(s: string, suffix: string): string {
    if |suffix| <= |s| && s[|s| - |suffix|..] == suffix then s[..|s| - |suffix|] else s
  }

  function TrimPrefix(s: string, prefix: string): string {
    if prefix <= s then s[|prefix|..] else s
  }

  /** A separator free of the first part determines where a joined text splits. */
  lemma SplitAtFirst(sep: char, a: string, b: string, x: string, y: string)
    requires sep !in a && sep !in b && a + [sep] + x == b + [sep] + y
    ensures a == b && x == y
  {
    var s := a + [sep] + x;
    assert s[|a|] == sep && s[|b|] == sep;
    assert forall i | 0 <= i < |a| :: s[i] == a[i];
    assert forall i | 0 <= i < |b| :: s[i] == b[i];
    assert |a| == |b|;
    assert a == s[..|a|] && b == s[..|a|] && x == s[|a| + 1..] && y == s[|a| + 1..];
  }

  lemma SplitAtLast(sep: char, x: string, a: string, y: string, b: string)
    requires sep !in a && sep !in b && x + [sep] + a == y + [sep] + b
    ensures x == y && a == b
  {
    var s := x + [sep] + a;
    assert s[|x|] == sep && s[|y|] == sep;
    assert forall i | |x| < i < |s| :: s[i] == a[i - |x| - 1];
    assert forall i | |y| < i < |s| :: s[i] == b[i - |y| - 1];
    assert |x| == |y|;
    assert x == s[..|x|] && y == s[..|x|] && a == s[|x| + 1..] && b == s[|x| + 1..];
  }

  // Go's < on strings.
  predicate Less(a: string, b: string) {
    if b == "" then false
    else if a == "" then true
    else if a[0] != b[0] then a[0] < b[0]
    else Less(a[1..], b[1..])
  }

  // The first place at which two strings differ decides; a string that ends there comes first.
  ghost predicate Dictionary(a: string, b: string) {
    exists n: nat :: DiffersAt(a, b, n)
  }

  ghost predicate DiffersAt(a: string, b: string, n: nat) {
    && n <= |a| && n < |b|
    && a[..n] == b[..n]
    && (n == |a| || a[n] < b[n])
  }

  /** The comparison is the order of a dictionary. */
  lemma {:induction false} LessIsLexicographic(a: string, b: string)
    ensures Less(a, b) <==> Dictionary(a, b)
  {
    if b != "" && (a == "" || a[0] < b[0]) {
      assert DiffersAt(a, b, 0);
    } else if a != "" && b != "" && a[0] == b[0] {
      LessIsLexicographic(a[1..], b[1..]);
      if Less(a, b) {
        var n: nat :| DiffersAt(a[1..], b[1..], n);
        assert a[..n + 1] == [a[0]] + a[1..][..n] && b[..n + 1] == [b[0]] + b[1..][..n];
        assert DiffersAt(a, b, n + 1);
      }
      if Dictionary(a, b) {
        var n: nat :| DiffersAt(a, b, n);
        assert a[1..][..n - 1] == a[..n][1..] && b[1..][..n - 1] == b[..n][1..];
        assert DiffersAt(a[1..], b[1..], n - 1);
      }
    }
  }

  lemma {:induction false} LessIsTotal(a: string, b: string)
    ensures a == b <==> !Less(a, b) && !Less(b, a)
    ensures !(Less(a, b) && Less(b, a))
  {
    if a != "" && b != "" && a[0] == b[0] {
      LessIsTotal(a[1..], b[1..]);
      assert a == [a[0]] + a[1..] && b == [b[0]] + b[1..];
    }
  }

  lemma {:induction false} LessIsTransitive(a: string, b: string, c: string)
    requires Less(a, b) && Less(b, c)
    ensures Less(a, c)
  {
    if a != "" && a[0] == b[0] && b[0] == c[0] {
      LessIsTransitive(a[1..], b[1..], c[1..]);
    }
  }
}
