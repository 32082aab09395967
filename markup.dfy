/**
 * The two string helpers of `user-system.js`: `esc`, which escapes text for
 * HTML, and `safeRedirect`, which chooses where the login page sends the
 * visitor next.
 */
module Markup {
  import opened Js

  // ==================================================================== esc

  /** `s.replace(/c/g, sub)` for a one-character pattern. */
  function Replace(s: string, c: char, sub: string): string
  {
    if s == [] then [] else (if s[0] == c then sub else [s[0]]) + Replace(s[1..], c, sub)
  }

  /** Replacing a character the text does not hold changes nothing. */
  lemma {:induction false} ReplaceAbsent(s: string, c: char, sub: string)
    requires c !in s
    ensures Replace(s, c, sub) == s
  {
    if s != [] {
      assert c !in s[1..];
      ReplaceAbsent(s[1..], c, sub);
      assert s == [s[0]] + s[1..];
    }
  }

  /** The chain of `esc`, ampersand first. */
  function Chain(s: string): string
  {
    Replace(Replace(Replace(Replace(Replace(s, '&', "&amp;"), '<', "&lt;"), '>', "&gt;"), '"', "&quot;"), '\'', "&#39;")
  }

  /** `esc(s)`: null and undefined become the empty string. */
  function Esc(v: Json): (r: string)
    ensures v.Null? || v.Undefined? ==> r == ""
  {
    Chain(if v.Null? || v.Undefined? then "" else ToStr(v))
  }

  /** The entity for each of the five characters, every other character as
      it is. */
  function EscChar(c: char): string
  {
    if c == '&' then "&amp;"
    else if c == '<' then "&lt;"
    else if c == '>' then "&gt;"
    else if c == '"' then "&quot;"
    else if c == '\'' then "&#39;"
    else [c]
  }

  /** Escaping one character at a time: the reference `esc` is checked
      against. */
  function EscapeEach(s: string): string
  {
    if s == [] then [] else EscChar(s[0]) + EscapeEach(s[1..])
  }

  lemma {:induction false} ReplaceAppend(a: string, b: string, c: char, sub: string)
    ensures Replace(a + b, c, sub) == Replace(a, c, sub) + Replace(b, c, sub)
  {
    if a == [] {
      assert a + b == b;
    } else {
      var t := a[1..];
      var h := if a[0] == c then sub else [a[0]];
      ReplaceAppend(t, b, c, sub);
      assert a == [a[0]] + t;
      assert a + b == [a[0]] + (t + b);
      ReplaceCons(a[0], t, c, sub);
      ReplaceCons(a[0], t + b, c, sub);
      assert h + (Replace(t, c, sub) + Replace(b, c, sub)) == (h + Replace(t, c, sub)) + Replace(b, c, sub);
    }
  }

  /** One step of the replacement. */
  lemma ReplaceCons(x: char, s: string, c: char, sub: string)
    ensures Replace([x] + s, c, sub) == (if x == c then sub else [x]) + Replace(s, c, sub)
  {
    assert ([x] + s)[1..] == s;
  }

  lemma ChainAppend(a: string, b: string)
    ensures Chain(a + b) == Chain(a) + Chain(b)
  {
    var a1, b1 := Replace(a, '&', "&amp;"), Replace(b, '&', "&amp;");
    ReplaceAppend(a, b, '&', "&amp;");
    var a2, b2 := Replace(a1, '<', "&lt;"), Replace(b1, '<', "&lt;");
    ReplaceAppend(a1, b1, '<', "&lt;");
    var a3, b3 := Replace(a2, '>', "&gt;"), Replace(b2, '>', "&gt;");
    ReplaceAppend(a2, b2, '>', "&gt;");
    var a4, b4 := Replace(a3, '"', "&quot;"), Replace(b3, '"', "&quot;");
    ReplaceAppend(a3, b3, '"', "&quot;");
    ReplaceAppend(a4, b4, '\'', "&#39;");
  }

  lemma ReplaceOne(c: char, sub: string)
    ensures Replace([c], c, sub) == sub
  {
    assert Replace([], c, sub) == [];
  }

  /** The four replacements after the ampersand's leave text without
      their characters alone. */
  lemma LaterKeep(s: string)
    requires '<' !in s && '>' !in s && '"' !in s && '\'' !in s
    ensures Replace(Replace(Replace(Replace(s, '<', "&lt;"), '>', "&gt;"), '"', "&quot;"), '\'', "&#39;") == s
  {
    ReplaceAbsent(s, '<', "&lt;");
    ReplaceAbsent(s, '>', "&gt;");
    ReplaceAbsent(s, '"', "&quot;");
    ReplaceAbsent(s, '\'', "&#39;");
  }

  lemma ChainOfChar(c: char)
    ensures Chain([c]) == EscChar(c)
  {
    if c == '&' {
      ReplaceOne('&', "&amp;");
      LaterKeep("&amp;");
    } else if c == '<' {
      ChainOfLt();
    } else if c == '>' {
      ChainOfGt();
    } else if c == '"' {
      ChainOfQuot();
    } else if c == '\'' {
      ChainOfApos();
    } else {
      ReplaceAbsent([c], '&', "&amp;");
      LaterKeep([c]);
    }
  }

  lemma ChainOfLt()
    ensures Chain("<") == "&lt;"
  {
    ReplaceAbsent("<", '&', "&amp;");
    ReplaceOne('<', "&lt;");
    LastThreeKeep("&lt;");
  }

  /** The last three replacements leave text without their characters
      alone. */
  lemma LastThreeKeep(s: string)
    requires '>' !in s && '"' !in s && '\'' !in s
    ensures Replace(Replace(Replace(s, '>', "&gt;"), '"', "&quot;"), '\'', "&#39;") == s
  {
    ReplaceAbsent(s, '>', "&gt;");
    ReplaceAbsent(s, '"', "&quot;");
    ReplaceAbsent(s, '\'', "&#39;");
  }

  lemma ChainOfGt()
    ensures Chain(">") == "&gt;"
  {
    ReplaceAbsent(">", '&', "&amp;");
    ReplaceAbsent(">", '<', "&lt;");
    ReplaceOne('>', "&gt;");
    ReplaceAbsent("&gt;", '"', "&quot;");
    ReplaceAbsent("&gt;", '\'', "&#39;");
  }

  lemma ChainOfQuot()
    ensures Chain("\"") == "&quot;"
  {
    ReplaceAbsent("\"", '&', "&amp;");
    ReplaceAbsent("\"", '<', "&lt;");
    ReplaceAbsent("\"", '>', "&gt;");
    ReplaceOne('"', "&quot;");
    ReplaceAbsent("&quot;", '\'', "&#39;");
  }

  lemma ChainOfApos()
    ensures Chain("'") == "&#39;"
  {
    ReplaceAbsent("'", '&', "&amp;");
    ReplaceAbsent("'", '<', "&lt;");
    ReplaceAbsent("'", '>', "&gt;");
    ReplaceAbsent("'", '"', "&quot;");
    ReplaceOne('\'', "&#39;");
  }

  /** Ampersands are escaped first, so no entity is escaped twice: the
      chain of replacements is character-by-character escaping. */
  lemma {:induction false} ChainIsEscapeEach(s: string)
    ensures Chain(s) == EscapeEach(s)
  {
    if s != [] {
      ChainIsEscapeEach(s[1..]);
      assert s == [s[0]] + s[1..];
      ChainAppend([s[0]], s[1..]);
      ChainOfChar(s[0]);
    }
  }

  lemma {:induction false} EscapeEachIsSafe(s: string)
    ensures '<' !in EscapeEach(s) && '>' !in EscapeEach(s) && '"' !in EscapeEach(s) && '\'' !in EscapeEach(s)
  {
    if s != [] {
      EscapeEachIsSafe(s[1..]);
    }
  }

  /** The escaped text holds none of the characters that end an HTML
      attribute value or start a tag. */
  lemma EscIsSafe(v: Json)
    ensures var r := Esc(v);
      '<' !in r && '>' !in r && '"' !in r && '\'' !in r
  {
    var s := if v.Null? || v.Undefined? then "" else ToStr(v);
    ChainIsEscapeEach(s);
    EscapeEachIsSafe(s);
  }

  // ========================================================== safeRedirect

  predicate StartsWith(s: string, p: string)
  {
    |p| <= |s| && s[..|p|] == p
  }

  /** `safeRedirect(fallback)` with `raw` the `redirect` query parameter
      (empty when absent), as written: anything non-empty that starts with
      neither "http" nor "//". */
  function SafeRedirect(raw: string, fallback: string): (r: string)
    ensures r == raw || r == fallback
    ensures r == raw <==> raw == fallback || (raw != "" && !StartsWith(raw, "http") && !StartsWith(raw, "//"))
  {
    if raw != "" && !StartsWith(raw, "http") && !StartsWith(raw, "//") then raw else fallback
  }

  /** What a browser's URL parser drops before it reads a link: leading
      control characters and spaces, then tabs and newlines anywhere. */
  function Cleaned(s: string): string
  {
    DropTabs(StripLeading(s))
  }

  function StripLeading(s: string): (r: string)
    ensures |r| <= |s|
  {
    if s != [] && s[0] <= ' ' then StripLeading(s[1..]) else s
  }

  function DropTabs(s: string): (r: string)
  {
    if s == [] then []
    else (if s[0] == '\t' || s[0] == '\n' || s[0] == '\r' then [] else [s[0]]) + DropTabs(s[1..])
  }

  predicate IsAlpha(c: char)
  {
    'a' <= c <= 'z' || 'A' <= c <= 'Z'
  }

  predicate SchemeChar(c: char)
  {
    IsAlpha(c) || '0' <= c <= '9' || c == '+' || c == '-' || c == '.'
  }

  /** `t` begins with a scheme, such as "HTTP:" or "javascript:". */
  predicate HasScheme(t: string)
  {
    exists i :: 1 <= i < |t| && t[i] == ':' && IsAlpha(t[0]) && forall j :: 1 <= j < i ==> SchemeChar(t[j])
  }

  predicate Slash(c: char)
  {
    c == '/' || c == '\\'
  }

  /** A link that may run script or leave the site: once cleaned it names a
      scheme of its own (`javascript:` runs script in the page, `https:`
      leaves) or starts with two slashes (a backslash counts as a slash). */
  predicate UnsafeTarget(u: string)
  {
    var t := Cleaned(u);
    HasScheme(t) || (|t| >= 2 && Slash(t[0]) && Slash(t[1]))
  }

  /** Links the check as written lets through, although each runs script or
      leaves the site: an upper-case scheme and a slash and a backslash leave
      it, a script link runs script in the page. */
  lemma AsWrittenLetsOut()
    ensures SafeRedirect("HTTPS://evil.example", "account.html") == "HTTPS://evil.example"
    ensures UnsafeTarget("HTTPS://evil.example")
    ensures SafeRedirect("/\\evil.example", "account.html") == "/\\evil.example"
    ensures UnsafeTarget("/\\evil.example")
    ensures SafeRedirect("javascript:alert(1)", "account.html") == "javascript:alert(1)"
    ensures UnsafeTarget("javascript:alert(1)")
  {
    UpperCaseScheme();
    SlashBackslash();
    ScriptLink();
  }

  lemma UpperCaseScheme()
    ensures SafeRedirect("HTTPS://evil.example", "account.html") == "HTTPS://evil.example"
    ensures UnsafeTarget("HTTPS://evil.example")
  {
    var u := "HTTPS://evil.example";
    Accepted(u, "account.html");
    SchemeLeaves(u, 5);
  }

  lemma SlashBackslash()
    ensures SafeRedirect("/\\evil.example", "account.html") == "/\\evil.example"
    ensures UnsafeTarget("/\\evil.example")
  {
    var v := "/\\evil.example";
    Accepted(v, "account.html");
    SlashesLeave(v);
  }

  lemma ScriptLink()
    ensures SafeRedirect("javascript:alert(1)", "account.html") == "javascript:alert(1)"
    ensures UnsafeTarget("javascript:alert(1)")
  {
    var w := "javascript:alert(1)";
    Accepted(w, "account.html");
    SchemeLeaves(w, 10);
  }

  lemma Accepted(u: string, fallback: string)
    requires |u| >= 2 && u[0] != 'h' && u[1] != '/'
    ensures SafeRedirect(u, fallback) == u
  {
    assert !StartsWith(u, "http") by {
      if |u| >= 4 {
        assert u[..4][0] != "http"[0];
      }
    }
    assert !StartsWith(u, "//") by {
      assert u[..2][1] != "//"[1];
    }
  }

  lemma SlashesLeave(u: string)
    requires forall k :: 0 <= k < |u| ==> u[k] > ' '
    requires |u| >= 2 && Slash(u[0]) && Slash(u[1])
    ensures UnsafeTarget(u)
  {
    PlainTextIsClean(u);
  }

  lemma SchemeLeaves(u: string, i: int)
    requires forall k :: 0 <= k < |u| ==> u[k] > ' '
    requires 1 <= i < |u| && u[i] == ':' && IsAlpha(u[0]) && forall j :: 1 <= j < i ==> SchemeChar(u[j])
    ensures UnsafeTarget(u)
  {
    PlainTextIsClean(u);
  }

  /** A same-site path: non-empty, no character at or below space, no colon
      (so no scheme), no backslash, and not starting with two slashes. */
  predicate SameSitePath(raw: string)
  {
    raw != "" && (forall i :: 0 <= i < |raw| ==> raw[i] > ' ' && raw[i] != ':' && raw[i] != '\\') &&
    !StartsWith(raw, "//")
  }

  /** The redirect chooser the source's own comment asks for. */
  function SafeRedirectFixed(raw: string, fallback: string): (r: string)
    ensures r == raw || r == fallback
  {
    if SameSitePath(raw) then raw else fallback
  }

  lemma {:induction false} PlainTextIsClean(s: string)
    requires forall i :: 0 <= i < |s| ==> s[i] > ' '
    ensures Cleaned(s) == s
  {
    if s != [] {
      PlainTextIsClean(s[1..]);
      assert StripLeading(s) == s;
      assert DropTabs(s) == [s[0]] + DropTabs(s[1..]);
      assert StripLeading(s[1..]) == s[1..] by {
        if s[1..] != [] {
          assert s[1..][0] == s[1];
        }
      }
    }
  }

  /** The corrected chooser never picks a link that may run script or leave
      the site unless the fallback is one. */
  lemma FixedStaysOnSite(raw: string, fallback: string)
    requires !UnsafeTarget(fallback)
    ensures !UnsafeTarget(SafeRedirectFixed(raw, fallback))
  {
    if SameSitePath(raw) {
      PlainTextIsClean(raw);
      assert !HasScheme(raw);
    }
  }

  /** The correction only narrows the check: every link it accepts that
      does not start with "http" was accepted before. */
  lemma FixedOnlyNarrows(raw: string, fallback: string)
    requires SafeRedirectFixed(raw, fallback) == raw && raw != fallback
    ensures !StartsWith(raw, "http") ==> SafeRedirect(raw, fallback) == raw
  {
  }
}
