/**
  The two string helpers of the web client: `cleanName` (a DAO name made into
  a URL slug) and `cleanURL` (a URL shown without its scheme).
 */
module Strings {

  /** `toLowerCase` on one character, for the ASCII letters. */
  function LowerChar(c: char): char {
    if 'A' <= c <= 'Z' then (c as int + 32) as char else c
  }

  predicate IsAscii(s: string) {
    forall i :: 0 <= i < |s| ==> s[i] as int < 128
  }

  /** `s.replace(/ /g, "-")`. */
  function ReplaceSpaces(s: string): string {
    seq(|s|, i requires 0 <= i < |s| => if s[i] == ' ' then '-' else s[i])
  }

  /** `s.toLowerCase()` (ASCII letters). */
  function ToLowerCase(s: string): string {
    seq(|s|, i requires 0 <= i < |s| => LowerChar(s[i]))
  }

  /** `cleanName`: spaces become '-', then everything is lower-cased. The result
      has no space, and each character is the lower-cased input character or
      '-' where the input had a space. */
  function CleanName(name: string): (r: string)
    ensures |r| == |name|
    ensures forall i :: 0 <= i < |r| ==> r[i] != ' '
    ensures forall i :: 0 <= i < |r| ==> (name[i] == ' ' ==> r[i] == '-')
    ensures forall i :: 0 <= i < |r| ==> (name[i] != ' ' ==> r[i] == LowerChar(name[i]))
  {
    ToLowerCase(ReplaceSpaces(name))
  }

  /** On ASCII input `cleanName` keeps the length, stays ASCII, has no upper-case
      letter, and applying it twice changes nothing more. */
  lemma CleanNameAscii(name: string)
    requires IsAscii(name)
    ensures |CleanName(name)| == |name| && IsAscii(CleanName(name))
    ensures forall i :: 0 <= i < |name| ==> !('A' <= CleanName(name)[i] <= 'Z')
    ensures CleanName(CleanName(name)) == CleanName(name)
  {
    var r := CleanName(name);
    assert forall i :: 0 <= i < |r| ==> r[i] as int < 128 by {
      forall i | 0 <= i < |r| ensures r[i] as int < 128 {
        assert name[i] as int < 128;
      }
    }
  }

  predicate IsWordChar(c: char) {
    'a' <= c <= 'z' || 'A' <= c <= 'Z' || '0' <= c <= '9' || c == '_'
  }

  /** The end of the run of word characters (`\w`) that starts at i. */
  function WordRun(s: string, i: nat): (k: nat)
    requires i <= |s|
    ensures i <= k <= |s|
    decreases |s| - i
  {
    if i < |s| && IsWordChar(s[i]) then WordRun(s, i + 1) else i
  }

  /** `url.replace(/(^\w+:|^)\/\//, "")`: one leading `scheme://` (the scheme a
      run of word characters) or one leading `//` is removed; there is no `g`
      flag, so at most one prefix goes. */
  function CleanURL(url: string): (r: string)
    ensures |r| <= |url| && r == url[|url| - |r|..]
  {
    var w := WordRun(url, 0);
    if w > 0 && w + 3 <= |url| && url[w..w + 3] == "://" then url[w + 3..]
    else if |url| >= 2 && url[..2] == "//" then url[2..]
    else url
  }

  /** The input starts with a scheme of k word characters followed by "://". */
  predicate SchemeAt(url: string, k: nat) {
    && 0 < k && k + 3 <= |url|
    && (forall j :: 0 <= j < k ==> IsWordChar(url[j]))
    && url[k..k + 3] == "://"
  }

  lemma {:induction false} WordRunAt(s: string, i: nat, k: nat)
    requires i <= k <= |s|
    requires forall j :: i <= j < k ==> IsWordChar(s[j])
    requires k == |s| || !IsWordChar(s[k])
    ensures WordRun(s, i) == k
    decreases k - i
  {
    if i < k {
      WordRunAt(s, i + 1, k);
    }
  }

  /** A scheme prefix is removed with its "://", and nothing else. */
  lemma CleanURLStripsScheme(url: string, k: nat)
    requires SchemeAt(url, k)
    ensures CleanURL(url) == url[k + 3..]
  {
    WordRunAt(url, 0, k);
  }

  /** Without a scheme prefix and without a leading "//" the URL is unchanged
      (for example "git+ssh://host": '+' is not a word character). */
  lemma CleanURLUnchanged(url: string)
    requires forall k :: !SchemeAt(url, k)
    requires !(|url| >= 2 && url[..2] == "//")
    ensures CleanURL(url) == url
  {
    WordRunWords(url, 0);
    SchemeOfRun(url);
  }

  /** When the word run at the start is followed by "://", it is a scheme. */
  lemma SchemeOfRun(url: string)
    ensures var w := WordRun(url, 0);
            w > 0 && w + 3 <= |url| && url[w..w + 3] == "://" ==> SchemeAt(url, w)
  {
    WordRunWords(url, 0);
  }

  lemma {:induction false} WordRunWords(s: string, i: nat)
    requires i <= |s|
    ensures forall j :: i <= j < WordRun(s, i) ==> IsWordChar(s[j])
    decreases |s| - i
  {
    if i < |s| && IsWordChar(s[i]) {
      WordRunWords(s, i + 1);
    }
  }

  /** A protocol-relative URL loses its leading "//". */
  lemma CleanURLProtocolRelative(rest: string)
    ensures CleanURL("//" + rest) == rest
  {
    assert WordRun("//" + rest, 0) == 0;
    assert ("//" + rest)[..2] == "//";
  }

  /** Only the first prefix is removed: "https://https://x" becomes "https://x". */
  lemma CleanURLOnce()
    ensures CleanURL("https://https://x") == "https://x"
  {
    var url := "https://https://x";
    assert IsWordChar(url[0]) && IsWordChar(url[1]) && IsWordChar(url[2]) && IsWordChar(url[3]) && IsWordChar(url[4]);
    assert url[5..8] == "://";
    CleanURLStripsScheme(url, 5);
    assert url[8..] == "https://x";
  }
}
