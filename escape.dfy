/**
 * `escapeHtml`: the rewrite that makes a task title safe to place inside
 * markup, by four `replaceAll` passes in the order `&`, `<`, `>`, `"`.
 */
module Escape {

  /** `s.replaceAll(c, rep)` for a one-character pattern. */
  function ReplaceAll(s: string, c: char, rep: string): (r: string)
    ensures c !in s ==> r == s
  {
    if s == [] then []
    else (if s[0] == c then rep else [s[0]]) + ReplaceAll(s[1..], c, rep)
  }

  lemma {:induction false} ReplaceAllAppend(a: string, b: string, c: char, rep: string)
    ensures ReplaceAll(a + b, c, rep) == ReplaceAll(a, c, rep) + ReplaceAll(b, c, rep)
  {
    if a == [] {
      assert a + b == b;
    } else {
      var ab := a + b;
      assert ab[0] == a[0] && ab[1..] == a[1..] + b;
      ReplaceAllAppend(a[1..], b, c, rep);
      var head := if a[0] == c then rep else [a[0]];
      calc {
        ReplaceAll(ab, c, rep);
        head + ReplaceAll(a[1..] + b, c, rep);
        head + (ReplaceAll(a[1..], c, rep) + ReplaceAll(b, c, rep));
        (head + ReplaceAll(a[1..], c, rep)) + ReplaceAll(b, c, rep);
      }
    }
  }

  /** The source's four `replaceAll` passes, in its order. */
  function EscapePasses(s: string): string
  {
    ReplaceAll(ReplaceAll(ReplaceAll(ReplaceAll(s, '&', "&amp;"), '<', "&lt;"), '>', "&gt;"), '"', "&quot;")
  }

  /** What one input character becomes. */
  function EscapeChar(c: char): string {
    match c
    case '&' => "&amp;"
    case '<' => "&lt;"
    case '>' => "&gt;"
    case '"' => "&quot;"
    case _ => [c]
  }

  /** Reference definition: every character escaped on its own. */
  function Escaped(s: string): string {
    if s == [] then [] else EscapeChar(s[0]) + Escaped(s[1..])
  }

  lemma {:induction false} EscapePassesAppend(a: string, b: string)
    ensures EscapePasses(a + b) == EscapePasses(a) + EscapePasses(b)
  {
    var a1, b1 := ReplaceAll(a, '&', "&amp;"), ReplaceAll(b, '&', "&amp;");
    ReplaceAllAppend(a, b, '&', "&amp;");
    var a2, b2 := ReplaceAll(a1, '<', "&lt;"), ReplaceAll(b1, '<', "&lt;");
    ReplaceAllAppend(a1, b1, '<', "&lt;");
    var a3, b3 := ReplaceAll(a2, '>', "&gt;"), ReplaceAll(b2, '>', "&gt;");
    ReplaceAllAppend(a2, b2, '>', "&gt;");
    ReplaceAllAppend(a3, b3, '"', "&quot;");
  }

  lemma ReplaceAllOne(x: char, c: char, rep: string)
    ensures ReplaceAll([x], c, rep) == if x == c then rep else [x]
  {
    assert [x][1..] == [];
  }

  /** The passes after the one that rewrote a character leave its entity alone:
      none of `<`, `>`, `"` occurs in an entity. */
  lemma LaterPassesKeep(e: string)
    requires '<' !in e && '>' !in e && '"' !in e
    ensures ReplaceAll(ReplaceAll(ReplaceAll(e, '<', "&lt;"), '>', "&gt;"), '"', "&quot;") == e
  {
  }

  lemma EscapePassesChar(c: char)
    ensures EscapePasses([c]) == EscapeChar(c)
  {
    ReplaceAllOne(c, '&', "&amp;");
    if c == '&' {
      LaterPassesKeep("&amp;");
    } else {
      LaterPassesOther(c);
    }
  }

  lemma LaterPassesOther(c: char)
    requires c != '&'
    ensures ReplaceAll(ReplaceAll(ReplaceAll([c], '<', "&lt;"), '>', "&gt;"), '"', "&quot;") == EscapeChar(c)
  {
    ReplaceAllOne(c, '<', "&lt;");
    if c == '<' {
      LaterPassesKeep("&lt;");
    } else {
      ReplaceAllOne(c, '>', "&gt;");
      if c == '>' {
        assert ReplaceAll("&gt;", '"', "&quot;") == "&gt;";
      } else {
        ReplaceAllOne(c, '"', "&quot;");
      }
    }
  }

  /** The four passes agree with escaping each character on its own: since `&` goes
      first, the `&` of an entity written by a later pass is never escaped again. */
  lemma {:induction false} EscapePassesAreEscaped(s: string)
    ensures EscapePasses(s) == Escaped(s)
  {
    if s != [] {
      assert s == [s[0]] + s[1..];
      EscapePassesAppend([s[0]], s[1..]);
      EscapePassesChar(s[0]);
      EscapePassesAreEscaped(s[1..]);
    }
  }

  /** `r` holds `e` from position `i` on. */
  predicate HasAt(r: string, i: nat, e: string) {
    i + |e| <= |r| && r[i..i + |e|] == e
  }

  /** The entities `escapeHtml` writes. */
  predicate EntityAt(r: string, i: nat) {
    HasAt(r, i, "&amp;") || HasAt(r, i, "&lt;") || HasAt(r, i, "&gt;") || HasAt(r, i, "&quot;")
  }

  /** Markup-safe text: no `<`, `>` or `"`, and every `&` opens one of the four entities. */
  predicate Safe(r: string) {
    forall i :: 0 <= i < |r| ==> r[i] != '<' && r[i] != '>' && r[i] != '"' && (r[i] == '&' ==> EntityAt(r, i))
  }

  lemma HasAtAppend(a: string, b: string, i: nat, e: string)
    ensures HasAt(a, i, e) ==> HasAt(a + b, i, e)
    ensures HasAt(b, i, e) ==> HasAt(a + b, |a| + i, e)
  {
    if HasAt(a, i, e) {
      assert (a + b)[i..i + |e|] == a[i..i + |e|];
    }
    if HasAt(b, i, e) {
      assert (a + b)[|a| + i..|a| + i + |e|] == b[i..i + |e|];
    }
  }

  lemma EntityAtAppend(a: string, b: string, i: nat)
    ensures i < |a| && EntityAt(a, i) ==> EntityAt(a + b, i)
    ensures |a| <= i && EntityAt(b, i - |a|) ==> EntityAt(a + b, i)
  {
    if i < |a| {
      HasAtAppend(a, b, i, "&amp;");
      HasAtAppend(a, b, i, "&lt;");
      HasAtAppend(a, b, i, "&gt;");
      HasAtAppend(a, b, i, "&quot;");
    } else {
      HasAtAppend(a, b, i - |a|, "&amp;");
      HasAtAppend(a, b, i - |a|, "&lt;");
      HasAtAppend(a, b, i - |a|, "&gt;");
      HasAtAppend(a, b, i - |a|, "&quot;");
    }
  }

  lemma SafeAppend(a: string, b: string)
    requires Safe(a) && Safe(b)
    ensures Safe(a + b)
  {
    var r := a + b;
    forall i | 0 <= i < |r| && r[i] == '&' ensures EntityAt(r, i) {
      EntityAtAppend(a, b, i);
      if i < |a| {
        assert a[i] == '&';
      } else {
        assert b[i - |a|] == '&';
      }
    }
  }

  lemma {:induction false} EscapedSafe(s: string)
    ensures Safe(Escaped(s))
  {
    if s != [] {
      var e := EscapeChar(s[0]);
      assert Safe(e) by {
        if s[0] == '&' || s[0] == '<' || s[0] == '>' || s[0] == '"' {
          assert e[0..|e|] == e;
          assert EntityAt(e, 0);
        }
      }
      EscapedSafe(s[1..]);
      SafeAppend(e, Escaped(s[1..]));
    }
  }

  /** Reading the four entities back, one left-to-right pass. */
  function Unescape(r: string): string {
    if r == [] then []
    else if |r| >= 5 && r[..5] == "&amp;" then ['&'] + Unescape(r[5..])
    else if |r| >= 4 && r[..4] == "&lt;" then ['<'] + Unescape(r[4..])
    else if |r| >= 4 && r[..4] == "&gt;" then ['>'] + Unescape(r[4..])
    else if |r| >= 6 && r[..6] == "&quot;" then ['"'] + Unescape(r[6..])
    else [r[0]] + Unescape(r[1..])
  }

  lemma UnescapeEscapeChar(c: char, rest: string)
    ensures Unescape(EscapeChar(c) + rest) == [c] + Unescape(rest)
  {
    var e := EscapeChar(c);
    var r := e + rest;
    assert r[..|e|] == e && r[|e|..] == rest;
    if c != '&' && c != '<' && c != '>' && c != '"' {
      assert r[0] == c;
      assert |r| >= 5 ==> r[..5][0] == c;
      assert |r| >= 4 ==> r[..4][0] == c;
      assert |r| >= 6 ==> r[..6][0] == c;
    } else if c == '<' || c == '>' || c == '"' {
      assert |r| >= 5 ==> r[..5][1] == e[1] != 'a';
    }
  }

  lemma {:induction false} UnescapeEscaped(s: string)
    ensures Unescape(Escaped(s)) == s
  {
    if s != [] {
      UnescapeEscapeChar(s[0], Escaped(s[1..]));
      UnescapeEscaped(s[1..]);
      assert s == [s[0]] + s[1..];
    }
  }

  /** `escapeHtml`: each character escaped on its own, so that the result holds no
      tag, no attribute quote and no `&` other than the start of an entity it wrote
      itself, and reading the entities back gives the title: nothing is lost and
      distinct titles never render alike. */
  function EscapeHtml(s: string): (r: string)
    ensures r == Escaped(s)
    ensures Safe(r)
    ensures Unescape(r) == s
  {
    EscapePassesAreEscaped(s);
    EscapedSafe(s);
    UnescapeEscaped(s);
    EscapePasses(s)
  }
}
