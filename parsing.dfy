/**
  Proposal descriptions of the federation client: the title is taken from the
  first markdown heading (`# Title`, or `Title` underlined with `===` / `---`),
  bold and italics markers are dropped from it, and literal `\n` escapes and
  one pair of surrounding quotes are removed from the description.

  The two title patterns are JavaScript regular expressions anchored at the
  start of the body; the functions below follow the way a backtracking
  matcher finds their first match, including the corner cases where the
  greedy parts have to give characters back.
 */
module Parsing {
  import opened Wrappers

  /** The `\s` class of JavaScript regular expressions (white space and line
      terminators). */
  predicate IsJsSpace(c: char) {
    || c == '\t' || c == '\n' || c == '\U{000B}' || c == '\U{000C}' || c == '\r' || c == ' '
    || c == '\U{00A0}' || c == '\U{1680}' || ('\U{2000}' <= c <= '\U{200A}')
    || c == '\U{2028}' || c == '\U{2029}' || c == '\U{202F}' || c == '\U{205F}'
    || c == '\U{3000}' || c == '\U{FEFF}'
  }

  predicate IsHash(c: char) { c == '#' }

  /** t occurs in s as a contiguous part. */
  predicate Occurs(t: string, s: string) {
    exists i :: 0 <= i <= |s| && t <= s[i..]
  }

  predicate NotNewline(c: char) { c != '\n' }

  /** The end of the longest run of characters satisfying p that starts at i
      (a greedy `p*`). */
  function Run(s: string, i: nat, p: char -> bool): (k: nat)
    requires i <= |s|
    ensures i <= k <= |s|
    ensures forall j :: i <= j < k ==> p(s[j])
    ensures k < |s| ==> !p(s[k])
    decreases |s| - i
  {
    if i < |s| && p(s[i]) then Run(s, i + 1, p) else i
  }

  /** A run is determined by where the predicate first fails. */
  lemma {:induction false} RunAt(s: string, i: nat, k: nat, p: char -> bool)
    requires i <= k <= |s|
    requires forall j :: i <= j < k ==> p(s[j])
    requires k == |s| || !p(s[k])
    ensures Run(s, i, p) == k
    decreases k - i
  {
    if i < k {
      RunAt(s, i + 1, k, p);
    }
  }

  /** The first line break at or after i, or the end of the body. */
  function LineEnd(s: string, i: nat): (e: nat)
    requires i <= |s|
    ensures i <= e <= |s| && (e < |s| ==> s[e] == '\n')
    ensures forall j :: i <= j < e ==> s[j] != '\n'
  {
    Run(s, i, NotNewline)
  }

  /** The largest j with lo <= j < hi and s[j] not a line break. */
  function LastNonNewline(s: string, lo: nat, hi: nat): (r: Option<nat>)
    requires lo <= hi <= |s|
    ensures r.Some? ==> lo <= r.value < hi && s[r.value] != '\n'
                        && forall j :: r.value < j < hi ==> s[j] == '\n'
    ensures r.None? ==> forall j :: lo <= j < hi ==> s[j] == '\n'
    decreases hi - lo
  {
    if hi == lo then None
    else if s[hi - 1] != '\n' then Some(hi - 1)
    else LastNonNewline(s, lo, hi - 1)
  }

  /** Group 1 of `/^\s*#{1,6}\s+([^\n]+)/`, or None when the body does not
      match. Leading white space, one to six '#' and at least one white-space
      character come before the title, which runs to the end of its line.
      When only white space follows the hashes, the matcher backs `\s+` off
      and the title is the last white-space character that is not a line
      break. */
  function HashTitle(s: string): (r: Option<string>)
    ensures r.Some? ==> |r.value| >= 1 && forall j :: 0 <= j < |r.value| ==> r.value[j] != '\n'
    ensures r.Some? ==> Occurs(r.value, s)
  {
    var w := Run(s, 0, IsJsSpace);
    var h := Run(s, w, IsHash);
    if h - w < 1 || h - w > 6 || h >= |s| || !IsJsSpace(s[h]) then None
    else
      var q := Run(s, h, IsJsSpace);
      if q < |s| then
        var e := LineEnd(s, q);
        assert s[q..e] <= s[q..];
        Some(s[q..e])
      else
        match LastNonNewline(s, h + 1, q)
        case None => None
        case Some(j) => assert [s[j]] <= s[j..]; Some([s[j]])
  }

  /** Group 1 of `/^\s*([^\n]+)\n(={3,25}|-{3,25})/` when the leading white
      space is taken up to position t: the line starting at t, if it is
      followed by a line break and at least three '=' or three '-'. The
      matcher tries t from the end of the leading white space back to 0. */
  function EqualTitleFrom(s: string, t: nat): (r: Option<string>)
    requires t <= |s|
    ensures r.Some? ==> |r.value| >= 1 && forall j :: 0 <= j < |r.value| ==> r.value[j] != '\n'
    ensures r.Some? ==> Occurs(r.value, s)
  {
    var e := LineEnd(s, t);
    if t < |s| && s[t] != '\n' && e + 3 < |s| && (s[e + 1..e + 4] == "===" || s[e + 1..e + 4] == "---") then
      assert s[t..e] <= s[t..];
      Some(s[t..e])
    else if t == 0 then None
    else EqualTitleFrom(s, t - 1)
  }

  function EqualTitle(s: string): (r: Option<string>)
    ensures r.Some? ==> |r.value| >= 1 && forall j :: 0 <= j < |r.value| ==> r.value[j] != '\n'
    ensures r.Some? ==> Occurs(r.value, s)
  {
    EqualTitleFrom(s, Run(s, 0, IsJsSpace))
  }

  /** `extractTitle`: no title for an empty body; a `#` heading wins over an
      underlined one. */
  function ExtractTitle(body: string): (r: Option<string>)
    ensures body == "" ==> r.None?
    ensures HashTitle(body).Some? ==> r == HashTitle(body)
    ensures HashTitle(body).None? ==> r == EqualTitle(body)
    ensures r.Some? ==> |r.value| >= 1 && forall j :: 0 <= j < |r.value| ==> r.value[j] != '\n'
  {
    if body == "" then None
    else if HashTitle(body).Some? then HashTitle(body)
    else EqualTitle(body)
  }

  /** A body of the form `<white space><1..6 '#'><white space><title>` with
      the title ending at a line break or at the end has that title. */
  lemma HashTitleOf(ws: string, k: nat, sp: string, title: string, rest: string)
    requires forall j :: 0 <= j < |ws| ==> IsJsSpace(ws[j])
    requires 1 <= k <= 6
    requires |sp| >= 1 && forall j :: 0 <= j < |sp| ==> IsJsSpace(sp[j])
    requires |title| >= 1 && !IsJsSpace(title[0]) && forall j :: 0 <= j < |title| ==> title[j] != '\n'
    requires rest == [] || rest[0] == '\n'
    ensures HashTitle(ws + seq(k, _ => '#') + sp + title + rest) == Some(title)
  {
    var hs := seq(k, _ => '#');
    var a1 := ws + hs;
    var a2 := a1 + sp;
    var a3 := a2 + title;
    var s := a3 + rest;
    var w, h, q, e := |ws|, |a1|, |a2|, |a3|;
    assert forall j :: 0 <= j < w ==> a1[j] == ws[j];
    assert forall j :: w <= j < h ==> a1[j] == hs[j - w];
    assert forall j :: 0 <= j < e ==> s[j] == a3[j];
    assert forall j :: 0 <= j < q ==> a3[j] == a2[j];
    assert forall j :: 0 <= j < h ==> a2[j] == a1[j];
    assert forall j :: h <= j < q ==> a2[j] == sp[j - h];
    assert forall j :: q <= j < e ==> a3[j] == title[j - q];
    assert e < |s| ==> s[e] == rest[0];
    assert s[q..e] == title;
    HashTitleAt(s, w, h, q, e);
  }

  /** The same, stated on the positions where the parts of the body end. */
  lemma HashTitleAt(s: string, w: nat, h: nat, q: nat, e: nat)
    requires w < h <= w + 6 && h < q < e <= |s|
    requires forall j :: 0 <= j < w ==> IsJsSpace(s[j])
    requires forall j :: w <= j < h ==> s[j] == '#'
    requires forall j :: h <= j < q ==> IsJsSpace(s[j])
    requires !IsJsSpace(s[q])
    requires forall j :: q <= j < e ==> s[j] != '\n'
    requires e == |s| || s[e] == '\n'
    ensures HashTitle(s) == Some(s[q..e])
  {
    RunAt(s, 0, w, IsJsSpace);
    RunAt(s, w, h, IsHash);
    RunAt(s, h, q, IsJsSpace);
    RunAt(s, q, e, NotNewline);
  }

  /** More than six '#' is not a heading (a body that starts with seven). */
  lemma SevenHashesNoTitle(rest: string)
    ensures HashTitle("#######" + rest) == None
  {
    var s := "#######" + rest;
    assert forall j :: 0 <= j < 7 ==> s[j] == '#';
    RunAt(s, 0, 0, IsJsSpace);
    RunPast(s, 0, 7, IsHash);
  }

  /** A run reaches at least as far as the characters satisfy p. */
  lemma {:induction false} RunPast(s: string, i: nat, m: nat, p: char -> bool)
    requires i <= m <= |s|
    requires forall j :: i <= j < m ==> p(s[j])
    ensures Run(s, i, p) >= m
    decreases m - i
  {
    if i < m {
      RunPast(s, i + 1, m, p);
    }
  }

  /** An underlined heading: a first line that does not start with white
      space, a line break and "===" or "---" give that line as the title. */
  lemma EqualTitleOf(title: string, rule: string, rest: string)
    requires |title| >= 1 && !IsJsSpace(title[0]) && forall j :: 0 <= j < |title| ==> title[j] != '\n'
    requires rule == "===" || rule == "---"
    ensures EqualTitle(title + "\n" + rule + rest) == Some(title)
  {
    var s := title + "\n" + rule + rest;
    var e := |title|;
    assert forall j :: 0 <= j < e ==> s[j] == title[j];
    assert s[e] == '\n';
    assert s[e + 1..e + 4] == rule;
    RunAt(s, 0, 0, IsJsSpace);
    RunAt(s, 0, e, NotNewline);
    assert s[0..e] == title;
  }

  /** When only white space follows the hashes, the title is the last
      white-space character that is not a line break: "# \t" gives "\t". */
  lemma HashTitleBacktracks()
    ensures HashTitle("# \t") == Some("\t")
    ensures HashTitle("#  \n") == Some(" ")
    ensures HashTitle("# \n") == None
  {
    var s1, s2, s3 := "# \t", "#  \n", "# \n";
    RunAt(s1, 0, 0, IsJsSpace); RunAt(s1, 0, 1, IsHash); RunAt(s1, 1, 3, IsJsSpace);
    RunAt(s2, 0, 0, IsJsSpace); RunAt(s2, 0, 1, IsHash); RunAt(s2, 1, 4, IsJsSpace);
    RunAt(s3, 0, 0, IsJsSpace); RunAt(s3, 0, 1, IsHash); RunAt(s3, 1, 3, IsJsSpace);
  }

  /** `s.replace(/ab/g, rep)` for a two-character pattern: matches are found
      left to right and do not overlap. */
  function ReplacePair(s: string, a: char, b: char, rep: string): string
  {
    if |s| < 2 then s
    else if s[0] == a && s[1] == b then rep + ReplacePair(s[2..], a, b, rep)
    else [s[0]] + ReplacePair(s[1..], a, b, rep)
  }

  /** The two-character sequence ab occurs nowhere in s. */
  predicate PairFree(s: string, a: char, b: char) {
    forall i :: 0 <= i < |s| - 1 ==> !(s[i] == a && s[i + 1] == b)
  }

  /** A body without the pattern is left alone. */
  lemma {:induction false} ReplacePairNone(s: string, a: char, b: char, rep: string)
    requires PairFree(s, a, b)
    ensures ReplacePair(s, a, b, rep) == s
  {
    if |s| >= 2 {
      assert !(s[0] == a && s[1] == b);
      assert PairFree(s[1..], a, b) by {
        forall i | 0 <= i < |s[1..]| - 1 ensures !(s[1..][i] == a && s[1..][i + 1] == b) {
          assert s[1..][i] == s[i + 1] && s[1..][i + 1] == s[i + 2];
        }
      }
      ReplacePairNone(s[1..], a, b, rep);
    }
  }

  /** `text.replace(/cc/g, "")`, as `removeBold` (c = '*') and `removeItalics`
      (c = '_') use it. */
  function RemovePair(s: string, c: char): string {
    ReplacePair(s, c, c, "")
  }

  /** The characters other than c, in order. */
  function Without(s: string, c: char): string {
    if s == [] then [] else (if s[0] == c then [] else [s[0]]) + Without(s[1..], c)
  }

  /** Removing a doubled character never removes anything else. */
  lemma {:induction false} RemovePairKeepsOthers(s: string, c: char)
    ensures Without(RemovePair(s, c), c) == Without(s, c)
  {
    if |s| >= 2 {
      if s[0] == c && s[1] == c {
        RemovePairKeepsOthers(s[2..], c);
        assert RemovePair(s, c) == RemovePair(s[2..], c);
        assert Without(s, c) == Without(s[1..], c);
        assert s[1..][0] == c && s[1..][1..] == s[2..];
        assert Without(s[1..], c) == Without(s[2..], c);
      } else {
        RemovePairKeepsOthers(s[1..], c);
        assert ([s[0]] + RemovePair(s[1..], c))[1..] == RemovePair(s[1..], c);
      }
    }
  }

  /** The result of removing a doubled character starts like the input when
      the input does not start with that character. */
  lemma RemovePairHead(s: string, c: char)
    requires |s| >= 1 && s[0] != c
    ensures |RemovePair(s, c)| >= 1 && RemovePair(s, c)[0] == s[0]
  {
  }

  /** After `removeBold` no "**" is left (and after `removeItalics` no "__"):
      a single c that is kept is always followed by another character. */
  lemma {:induction false} RemovePairComplete(s: string, c: char)
    ensures PairFree(RemovePair(s, c), c, c)
  {
    var r := RemovePair(s, c);
    if |s| >= 2 {
      if s[0] == c && s[1] == c {
        RemovePairComplete(s[2..], c);
        assert r == RemovePair(s[2..], c);
      } else {
        var t := RemovePair(s[1..], c);
        RemovePairComplete(s[1..], c);
        assert r == [s[0]] + t;
        forall i | 0 <= i < |r| - 1 ensures !(r[i] == c && r[i + 1] == c) {
          if i == 0 {
            if s[0] == c {
              RemovePairHead(s[1..], c);
              assert r[1] == s[1] != c;
            }
          } else {
            assert r[i] == t[i - 1] && r[i + 1] == t[i];
          }
        }
      }
    }
  }

  /** `removeMarkdownStyle`: `compose(removeBold, removeItalics)`, so "__" is
      removed first and "**" second. */
  function RemoveMarkdownStyle(text: string): (r: string)
    ensures PairFree(r, '*', '*')
    ensures Without(Without(r, '*'), '_') == Without(Without(text, '*'), '_')
  {
    var noItalics := RemovePair(text, '_');
    RemovePairComplete(noItalics, '*');
    RemovePairKeepsOthers(noItalics, '*');
    RemovePairKeepsOthers(text, '_');
    WithoutCommutes(noItalics, '*', '_');
    WithoutCommutes(text, '*', '_');
    RemovePair(noItalics, '*')
  }

  lemma {:induction false} WithoutCommutes(s: string, c: char, d: char)
    ensures Without(Without(s, c), d) == Without(Without(s, d), c)
  {
    if s != [] {
      WithoutCommutes(s[1..], c, d);
      WithoutConcat(if s[0] == c then [] else [s[0]], Without(s[1..], c), d);
      WithoutConcat(if s[0] == d then [] else [s[0]], Without(s[1..], d), c);
    }
  }

  lemma {:induction false} WithoutConcat(x: string, y: string, c: char)
    ensures Without(x + y, c) == Without(x, c) + Without(y, c)
  {
    if x == [] {
      assert x + y == y;
    } else {
      var h := if x[0] == c then [] else [x[0]];
      assert (x + y)[0] == x[0] && (x + y)[1..] == x[1..] + y;
      WithoutConcat(x[1..], y, c);
      assert Without(x + y, c) == h + (Without(x[1..], c) + Without(y, c));
      assert h + (Without(x[1..], c) + Without(y, c)) == (h + Without(x[1..], c)) + Without(y, c);
    }
  }

  /** Because italics go first, "_**_" becomes "__": the removal of bold can
      leave a doubled underscore behind. */
  lemma StyleOrder()
    ensures RemoveMarkdownStyle("_**_") == "__"
  {
    assert RemovePair("_**_", '_') == "_**_";
  }

  /** `replace(/\\n/g, "\n")`: each literal backslash-n becomes a line break. */
  function Unescape(s: string): string {
    ReplacePair(s, '\\', 'n', "\n")
  }

  lemma UnescapeHead(s: string)
    requires |s| >= 1 && s[0] != '\\'
    ensures |Unescape(s)| >= 1 && Unescape(s)[0] == s[0]
  {
  }

  /** No literal backslash-n survives the unescaping. */
  lemma {:induction false} UnescapeComplete(s: string)
    ensures PairFree(Unescape(s), '\\', 'n')
  {
    var r := Unescape(s);
    if |s| >= 2 {
      if s[0] == '\\' && s[1] == 'n' {
        var t := Unescape(s[2..]);
        UnescapeComplete(s[2..]);
        assert r == "\n" + t;
        forall i | 0 <= i < |r| - 1 ensures !(r[i] == '\\' && r[i + 1] == 'n') {
          if i > 0 {
            assert r[i] == t[i - 1] && r[i + 1] == t[i];
          }
        }
      } else {
        var t := Unescape(s[1..]);
        UnescapeComplete(s[1..]);
        assert r == [s[0]] + t;
        forall i | 0 <= i < |r| - 1 ensures !(r[i] == '\\' && r[i + 1] == 'n') {
          if i == 0 {
            if s[0] == '\\' {
              if s[1] == '\\' && |s| >= 3 && s[2] == 'n' {
                assert t[0] == '\n';
              } else if s[1] != '\\' {
                UnescapeHead(s[1..]);
              } else {
                assert |s[1..]| < 2 || !(s[1..][0] == '\\' && s[1..][1] == 'n');
                assert t[0] == s[1];
              }
            }
          } else {
            assert r[i] == t[i - 1] && r[i + 1] == t[i];
          }
        }
      }
    }
  }

  predicate IsQuote(c: char) { c == '\'' || c == '"' }

  /** `replace(/(^['"]|['"]$)/g, "")`: one leading and one trailing quote
      character are removed; a lone quote is removed once. */
  function StripQuotes(s: string): (r: string)
    ensures |r| <= |s| && Occurs(r, s)
    ensures |s| >= 2 && IsQuote(s[0]) && IsQuote(s[|s| - 1]) ==> r == s[1..|s| - 1]
    ensures |s| >= 1 && !IsQuote(s[0]) && !IsQuote(s[|s| - 1]) ==> r == s
    ensures |s| >= 1 && IsQuote(s[0]) && !IsQuote(s[|s| - 1]) ==> r == s[1..]
    ensures |s| >= 1 && !IsQuote(s[0]) && IsQuote(s[|s| - 1]) ==> r == s[..|s| - 1]
    ensures |s| == 1 && IsQuote(s[0]) ==> r == ""
    ensures |r| + 2 >= |s|
  {
    var a := if |s| >= 1 && IsQuote(s[0]) then 1 else 0;
    var b := if |s| > a && IsQuote(s[|s| - 1]) then |s| - 1 else |s|;
    assert s[a..b] <= s[a..];
    s[a..b]
  }

  /** A part of a text free of a pair is free of it too. */
  lemma PairFreeOccurs(t: string, s: string, a: char, b: char)
    requires Occurs(t, s) && PairFree(s, a, b)
    ensures PairFree(t, a, b)
  {
    var i :| 0 <= i <= |s| && t <= s[i..];
    forall k | 0 <= k < |t| - 1 ensures !(t[k] == a && t[k + 1] == b) {
      assert t[k] == s[i + k] && t[k + 1] == s[i + k + 1];
    }
  }

  /** The parsed form of a proposal description. */
  datatype Parsed = Parsed(title: string, desc: string)

  /** `parseDescription`: an undefined description reads as "". The
      description is unescaped and stripped of its quotes; the title is the
      styled-free first heading of that text, or "Untitled". */
  function ParseDescription(desc: Option<string>): (r: Parsed)
    ensures r.desc == StripQuotes(Unescape(desc.GetOr("")))
    ensures PairFree(r.desc, '\\', 'n')
    ensures ExtractTitle(r.desc).None? ==> r.title == "Untitled"
    ensures ExtractTitle(r.desc).Some? ==> r.title == RemoveMarkdownStyle(ExtractTitle(r.desc).value)
    ensures PairFree(r.title, '*', '*')
  {
    var u := Unescape(desc.GetOr(""));
    var d := StripQuotes(u);
    UnescapeComplete(desc.GetOr(""));
    PairFreeOccurs(d, u, '\\', 'n');
    var t := ExtractTitle(d);
    var title := if t.Some? then RemoveMarkdownStyle(t.value) else "Untitled";
    Parsed(title, d)
  }
}
