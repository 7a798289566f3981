/** Screenshot path rewriting (BillNote_frontend/src/utils/screenshotUtils.ts):
    the base URL, the relative-to-absolute conversion, and the global rewrite of
    Markdown image links `![alt](/static/screenshots/X)` performed by the regular
    expression `/!\[([^\]]*)\]\((\/static\/screenshots\/[^)]+)\)/g`. The
    configured base URL (VITE_SCREENSHOT_BASE_URL) is a parameter. */
module Screenshots {
  import opened Common
  import opened Strings

  const DefaultBaseUrl: string := "http://localhost:8483/static/screenshots"

  /** The server-relative prefix under which screenshots are served. */
  const ScreenshotPrefix: string := "/static/screenshots/"

  /** `getScreenshotBaseURL`: the configured value unless it is unset or empty. */
  function BaseUrl(configured: Option<string>): (r: string)
    ensures Truthy(configured) ==> r == configured.value
    ensures !Truthy(configured) ==> r == DefaultBaseUrl
  {
    if Truthy(configured) then configured.value else DefaultBaseUrl
  }

  /** `convertToAbsoluteScreenshotPath`: absolute URLs pass through; anything
      else is appended to the base after dropping one leading screenshot prefix. */
  function ConvertToAbsolute(base: string, path: string): string {
    if StartsWith(path, "http") then path
    else base + "/" + RemovePrefix(path, ScreenshotPrefix)
  }

  /** What the conversion does, case by case. */
  lemma ConvertCases(base: string, path: string, file: string)
    ensures StartsWith(path, "http") ==> ConvertToAbsolute(base, path) == path
    ensures !StartsWith(ScreenshotPrefix + file, "http") &&
      ConvertToAbsolute(base, ScreenshotPrefix + file) == base + "/" + file
    ensures !StartsWith(path, "http") && !StartsWith(path, ScreenshotPrefix) ==>
      ConvertToAbsolute(base, path) == base + "/" + path
  {
    assert (ScreenshotPrefix + file)[..|ScreenshotPrefix|] == ScreenshotPrefix;
    assert (ScreenshotPrefix + file)[0] == '/';
  }

  /** A served screenshot path becomes `base/X`. */
  lemma ConvertPrefixed(base: string, file: string)
    ensures ConvertToAbsolute(base, ScreenshotPrefix + file) == base + "/" + file
  {
    assert (ScreenshotPrefix + file)[..|ScreenshotPrefix|] == ScreenshotPrefix;
    assert (ScreenshotPrefix + file)[0] == '/';
  }

  /** With an http(s) base, converting twice is converting once. */
  lemma ConvertIdempotent(base: string, path: string)
    requires StartsWith(base, "http")
    ensures ConvertToAbsolute(base, ConvertToAbsolute(base, path)) == ConvertToAbsolute(base, path)
  {
    var once := ConvertToAbsolute(base, path);
    if !StartsWith(path, "http") {
      assert once[..4] == base[..4];
    }
  }

  // ---------------------------------------------------------------------------
  // The Markdown rewrite
  // ---------------------------------------------------------------------------

  /** A match of the image-link pattern at the start of a string: the alt text,
      the file part after the screenshot prefix, and the matched length. */
  datatype ImageLink = ImageLink(alt: string, file: string, len: nat)

  predicate NoChar(s: string, c: char) {
    forall i :: 0 <= i < |s| ==> s[i] != c
  }

  /** The text the pattern matches for a given alt text, served prefix and file. */
  function LinkText(alt: string, prefix: string, file: string): string {
    "![" + alt + "](" + prefix + file + ")"
  }

  /** Cutting a string at five increasing points and gluing the pieces back. */
  lemma SliceFive(s: string, j: nat, f: nat, k: nat)
    requires 2 <= j && j + 2 <= f <= k < |s|
    ensures s[..k + 1] == s[..2] + s[2..j] + s[j..j + 2] + s[j + 2..f] + s[f..k] + [s[k]]
  {
  }

  /** Matching the pattern, with `prefix` for the served directory, at offset 0.
      Both repetitions can only end at the first closing bracket or parenthesis,
      so the match is unique. */
  function MatchLink(s: string, prefix: string): Option<ImageLink> {
    if |s| < 2 || s[0] != '!' || s[1] != '[' then None
    else match IndexOf(s, ']', 2)
      case None => None
      case Some(j) =>
        var f := j + 2 + |prefix|;
        if j + 1 < |s| && s[j + 1] == '(' && StartsWith(s[j + 2..], prefix) then
          match IndexOf(s, ')', f)
            case None => None
            case Some(k) => if k > f then Some(ImageLink(s[2..j], s[f..k], k + 1)) else None
        else None
  }

  /** Whatever the pattern matches is a well-formed link: "![", an alt text
      without "]", "](", the prefix, a non-empty file without ")" and ")". */
  lemma MatchLinkSound(s: string, prefix: string)
    ensures MatchLink(s, prefix).Some? ==>
      var m := MatchLink(s, prefix).value;
      && 1 <= m.len <= |s|
      && s[..m.len] == LinkText(m.alt, prefix, m.file)
      && NoChar(m.alt, ']') && NoChar(m.file, ')') && |m.file| > 0
  {
    if MatchLink(s, prefix).Some? {
      IndexOfSound(s, ']', 2);
      var j := IndexOf(s, ']', 2).value;
      var f := j + 2 + |prefix|;
      IndexOfSound(s, ')', f);
      var k := IndexOf(s, ')', f).value;
      assert s[j + 2..f] == prefix;
      assert s[..2] == "![" && s[j..j + 2] == "](";
      SliceFive(s, j, f, k);
    }
  }

  /** Where each part of a link sits in the link followed by `rest`. */
  lemma LinkLayout(alt: string, prefix: string, file: string, rest: string)
    ensures var s := LinkText(alt, prefix, file) + rest;
      var j := 2 + |alt|;
      var f := j + 2 + |prefix|;
      var k := f + |file|;
      && k < |s| && s[0] == '!' && s[1] == '[' && s[2..j] == alt
      && s[j] == ']' && s[j + 1] == '(' && s[j + 2..][..|prefix|] == prefix
      && s[f..k] == file && s[k] == ')'
  {
    var s := LinkText(alt, prefix, file) + rest;
    var j := 2 + |alt|;
    var f := j + 2 + |prefix|;
    assert s == "![" + alt + "](" + prefix + file + ")" + rest;
    assert s[j + 2..][..|prefix|] == s[j + 2..f];
  }

  /** The search stops at `k` when `k` holds the character and nothing
      between `from` and `k` does. */
  lemma IndexOfAt(s: string, c: char, from: nat, k: nat)
    requires from <= k < |s| && s[k] == c
    requires forall m :: from <= m < k ==> s[m] != c
    ensures IndexOf(s, c, from) == Some(k)
  {
    IndexOfSound(s, c, from);
  }

  /** A well-formed link is matched in full, whatever follows it. */
  lemma MatchLinkText(alt: string, prefix: string, file: string, rest: string)
    requires NoChar(alt, ']') && NoChar(file, ')') && |file| > 0
    ensures MatchLink(LinkText(alt, prefix, file) + rest, prefix) ==
      Some(ImageLink(alt, file, |LinkText(alt, prefix, file)|))
  {
    var s := LinkText(alt, prefix, file) + rest;
    var j := 2 + |alt|;
    var f := j + 2 + |prefix|;
    var k := f + |file|;
    LinkLayout(alt, prefix, file, rest);
    forall m | 2 <= m < j ensures s[m] != ']' {
      assert s[m] == s[2..j][m - 2];
    }
    IndexOfAt(s, ']', 2, j);
    forall m | f <= m < k ensures s[m] != ')' {
      assert s[m] == s[f..k][m - f];
    }
    IndexOfAt(s, ')', f, k);
    assert |LinkText(alt, prefix, file)| == k + 1;
  }

  /** The replacement for one match. */
  function Rewrite(base: string, m: ImageLink): string {
    "![" + m.alt + "](" + ConvertToAbsolute(base, ScreenshotPrefix + m.file) + ")"
  }

  /** `processMarkdownScreenshots`: scan left to right, replace each match and
      continue after it, copy every other character. */
  function ProcessMarkdown(base: string, s: string): string
    decreases |s|
  {
    if |s| == 0 then ""
    else match MatchLink(s, ScreenshotPrefix)
      case Some(m) =>
        MatchLinkSound(s, ScreenshotPrefix);
        Rewrite(base, m) + ProcessMarkdown(base, s[m.len..])
      case None => [s[0]] + ProcessMarkdown(base, s[1..])
  }

  /** A step of the scan that replaces a match and resumes after it. */
  lemma ProcessMatched(base: string, s: string, m: ImageLink)
    requires |s| > 0 && MatchLink(s, ScreenshotPrefix) == Some(m)
    ensures m.len <= |s|
    ensures ProcessMarkdown(base, s) == Rewrite(base, m) + ProcessMarkdown(base, s[m.len..])
  {
    MatchLinkSound(s, ScreenshotPrefix);
  }

  /** A step of the scan that copies one character and moves on. */
  lemma ProcessUnmatched(base: string, s: string)
    requires |s| > 0 && MatchLink(s, ScreenshotPrefix).None?
    ensures ProcessMarkdown(base, s) == [s[0]] + ProcessMarkdown(base, s[1..])
  {
  }

  /** Outside an exclamation mark the scan copies one character. */
  lemma ProcessCopy(base: string, s: string)
    requires |s| > 0 && s[0] != '!'
    ensures ProcessMarkdown(base, s) == [s[0]] + ProcessMarkdown(base, s[1..])
  {
    NoMatchWithoutBang(s, ScreenshotPrefix);
    ProcessUnmatched(base, s);
  }

  /** A match covering exactly `link` is replaced and the scan resumes on
      what follows it. */
  lemma ProcessMatchedConcat(base: string, link: string, rest: string, m: ImageLink)
    requires |link| > 0 && m.len == |link| && MatchLink(link + rest, ScreenshotPrefix) == Some(m)
    ensures ProcessMarkdown(base, link + rest) == Rewrite(base, m) + ProcessMarkdown(base, rest)
  {
    ProcessMatched(base, link + rest, m);
    assert (link + rest)[m.len..] == rest;
  }

  /** The replacement of a served screenshot link points at `base/X`. */
  lemma RewritePrefixed(base: string, m: ImageLink)
    ensures Rewrite(base, m) == "![" + m.alt + "](" + base + "/" + m.file + ")"
  {
    ConvertPrefixed(base, m.file);
  }

  /** Every screenshot link becomes a link to `base/X`, and rewriting goes on
      after it. */
  lemma ProcessLink(base: string, alt: string, file: string, rest: string)
    requires NoChar(alt, ']') && NoChar(file, ')') && |file| > 0
    ensures ProcessMarkdown(base, LinkText(alt, ScreenshotPrefix, file) + rest) ==
      "![" + alt + "](" + base + "/" + file + ")" + ProcessMarkdown(base, rest)
  {
    var link := LinkText(alt, ScreenshotPrefix, file);
    var m := ImageLink(alt, file, |link|);
    MatchLinkText(alt, ScreenshotPrefix, file, rest);
    ProcessMatchedConcat(base, link, rest, m);
    RewritePrefixed(base, m);
  }

  /** A character other than "!" in front of the rest is copied. */
  lemma ProcessCopyConcat(base: string, t: string, rest: string)
    requires |t| > 0 && t[0] != '!'
    ensures ProcessMarkdown(base, t + rest) == [t[0]] + ProcessMarkdown(base, t[1..] + rest)
  {
    assert (t + rest)[0] == t[0] && (t + rest)[1..] == t[1..] + rest;
    ProcessCopy(base, t + rest);
  }

  /** Gluing the first character back onto the rest of `t`. */
  lemma ConsConcat(t: string, tail: string)
    requires |t| > 0
    ensures [t[0]] + (t[1..] + tail) == t + tail
  {
    assert t == [t[0]] + t[1..];
  }

  lemma NoCharTail(t: string, c: char)
    requires |t| > 0 && NoChar(t, c)
    ensures NoChar(t[1..], c)
  {
    forall i | 0 <= i < |t| - 1 ensures t[1..][i] != c {
      assert t[1..][i] == t[i + 1];
    }
  }

  /** Text without an exclamation mark is copied unchanged ahead of the rest. */
  lemma {:induction false} ProcessPlainPrefix(base: string, t: string, rest: string)
    requires NoChar(t, '!')
    ensures ProcessMarkdown(base, t + rest) == t + ProcessMarkdown(base, rest)
    decreases |t|
  {
    if |t| > 0 {
      ProcessCopyConcat(base, t, rest);
      NoCharTail(t, '!');
      ProcessPlainPrefix(base, t[1..], rest);
      ConsConcat(t, ProcessMarkdown(base, rest));
    } else {
      assert t + rest == rest;
    }
  }

  /** A match can only start at an exclamation mark. */
  lemma NoMatchWithoutBang(s: string, prefix: string)
    requires |s| > 0 && s[0] != '!'
    ensures MatchLink(s, prefix).None?
  {
  }

  /** A match exhibits an occurrence of the prefix. */
  lemma MatchShowsPrefix(s: string, prefix: string)
    requires MatchLink(s, prefix).Some?
    ensures Contains(s, prefix)
  {
    var m := MatchLink(s, prefix).value;
    MatchLinkSound(s, prefix);
    var j := 2 + |m.alt|;
    var link := LinkText(m.alt, prefix, m.file);
    assert link == "![" + m.alt + "](" + prefix + m.file + ")";
    assert link[j + 2..j + 2 + |prefix|] == prefix;
    assert s[j + 2..j + 2 + |prefix|] == link[j + 2..j + 2 + |prefix|];
    assert OccursAt(s, prefix, j + 2);
    ContainsIff(s, prefix);
  }

  /** Text in which "![" never occurs is left exactly as it is: every match
      starts with an image opening. */
  lemma {:induction false} ProcessWithoutOpening(base: string, s: string)
    requires !Contains(s, "![")
    ensures ProcessMarkdown(base, s) == s
    decreases |s|
  {
    if |s| > 0 {
      assert MatchLink(s, ScreenshotPrefix).None?;
      assert !Contains(s[1..], "![");
      ProcessUnmatched(base, s);
      ProcessWithoutOpening(base, s[1..]);
      assert s == [s[0]] + s[1..];
    }
  }

  /** Text that never mentions the screenshot prefix is left exactly as it is,
      including image links to other targets. */
  lemma {:induction false} ProcessWithoutPrefix(base: string, s: string)
    requires !Contains(s, ScreenshotPrefix)
    ensures ProcessMarkdown(base, s) == s
    decreases |s|
  {
    if |s| > 0 {
      if MatchLink(s, ScreenshotPrefix).Some? {
        MatchShowsPrefix(s, ScreenshotPrefix);
      } else {
        assert !Contains(s[1..], ScreenshotPrefix);
        ProcessUnmatched(base, s);
        ProcessWithoutPrefix(base, s[1..]);
        assert s == [s[0]] + s[1..];
      }
    }
  }
}
