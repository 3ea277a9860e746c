/**
 * The download link of the details view: the app name with spaces turned into
 * underscores and every character outside `[A-Za-z0-9_-]` dropped, under a fixed host.
 */
module Download {
  import opened JsText
  import opened Catalog

  const BlobPrefix: string := "https://yqhnhdptqz5eavtl.public.blob.vercel-storage.com/"

  /** `[\w-]`: an ASCII letter or digit, an underscore or a hyphen. */
  predicate IsNameChar(c: char) {
    ('A' <= c <= 'Z') || ('a' <= c <= 'z') || ('0' <= c <= '9') || c == '_' || c == '-'
  }

  /** `.replace(/ /g, '_')`. */
  function ReplaceSpaces(s: string): (r: string)
    ensures |r| == |s|
    ensures forall i | 0 <= i < |s| :: r[i] == if s[i] == ' ' then '_' else s[i]
  {
    seq(|s|, i requires 0 <= i < |s| => if s[i] == ' ' then '_' else s[i])
  }

  /** `.replace(/[^\w-]/g, '')`. */
  function DropNonNameChars(s: string): (r: string)
    ensures |r| <= |s|
    ensures forall i | 0 <= i < |r| :: IsNameChar(r[i])
    ensures forall c | IsNameChar(c) :: multiset(r)[c] == multiset(s)[c]
    ensures (forall i | 0 <= i < |s| :: IsNameChar(s[i])) ==> r == s
  {
    if s == [] then []
    else
      assert s == [s[0]] + s[1..];
      (if IsNameChar(s[0]) then [s[0]] else []) + DropNonNameChars(s[1..])
  }

  /** `sanitizedName` in `handleInstallClick`. */
  function SanitizeName(name: string): string {
    DropNonNameChars(ReplaceSpaces(name))
  }

  /** What one character of the name turns into. */
  function SanitizeChar(c: char): string {
    if c == ' ' then "_" else if IsNameChar(c) then [c] else []
  }

  /** The name sanitized character by character, left to right, in one pass. */
  function SanitizeEach(name: string): string {
    if name == [] then [] else SanitizeChar(name[0]) + SanitizeEach(name[1..])
  }

  /**
   * The two replacements act as one pass: spaces become underscores, name characters
   * stay in order, everything else goes.
   */
  lemma {:induction false} SanitizeNameIsOnePass(name: string)
    ensures SanitizeName(name) == SanitizeEach(name)
  {
    if name != [] {
      SanitizeNameIsOnePass(name[1..]);
      assert ReplaceSpaces(name)[1..] == ReplaceSpaces(name[1..]);
    }
  }

  /** The sanitized name is made of name characters only and is no longer than the name. */
  lemma SanitizeNameIsSafe(name: string)
    ensures forall i | 0 <= i < |SanitizeName(name)| :: IsNameChar(SanitizeName(name)[i])
    ensures |SanitizeName(name)| <= |name|
  {
  }

  /** A name made of name characters only is left as it is. */
  lemma {:induction false} SanitizeKeepsNameChars(name: string)
    requires forall i | 0 <= i < |name| :: IsNameChar(name[i])
    ensures SanitizeName(name) == name
  {
    SanitizeNameIsOnePass(name);
    SanitizeEachKeeps(name);
  }

  lemma {:induction false} SanitizeEachKeeps(name: string)
    requires forall i | 0 <= i < |name| :: IsNameChar(name[i])
    ensures SanitizeEach(name) == name
  {
    if name != [] {
      SanitizeEachKeeps(name[1..]);
      assert name == [name[0]] + name[1..];
    }
  }

  /** Sanitizing twice is sanitizing once. */
  lemma SanitizeIdempotent(name: string)
    ensures SanitizeName(SanitizeName(name)) == SanitizeName(name)
  {
    SanitizeNameIsSafe(name);
    SanitizeKeepsNameChars(SanitizeName(name));
  }

  /** The last segment of the link: the sanitized name and `.app`. */
  function NamePart(app: App): string {
    SanitizeName(app.name) + ".app"
  }

  /** What follows the host in `downloadUrl`: the app id, a slash and the name part. */
  function DownloadPath(app: App): string {
    IntToString(app.id) + ("/" + NamePart(app))
  }

  /**
   * `downloadUrl`: the fixed host, then the app id's text, which reads back as the id,
   * then the only slash after the host, then the sanitized name and `.app`.
   */
  function DownloadUrl(app: App): (url: string)
    ensures StartsWith(url, BlobPrefix)
    ensures var k := |BlobPrefix| + |IntToString(app.id)|;
            k < |url| && url[k] == '/'
            && ParseInt(url[|BlobPrefix|..k]) == Int(app.id)
            && '/' !in url[|BlobPrefix|..k] && '/' !in url[k + 1..]
            && url[k + 1..] == SanitizeName(app.name) + ".app"
  {
    DownloadUrlSplits(app);
    BlobPrefix + DownloadPath(app)
  }

  /** The path splits as `DownloadPathSplits` says, seen from the start of the link. */
  lemma DownloadUrlSplits(app: App)
    ensures var url := BlobPrefix + DownloadPath(app);
            var k := |BlobPrefix| + |IntToString(app.id)|;
            StartsWith(url, BlobPrefix)
            && k < |url| && url[k] == '/'
            && ParseInt(url[|BlobPrefix|..k]) == Int(app.id)
            && '/' !in url[|BlobPrefix|..k] && '/' !in url[k + 1..]
            && url[k + 1..] == SanitizeName(app.name) + ".app"
  {
    var j := |IntToString(app.id)|;
    DownloadPathSplits(app, j);
    SliceAfterPrefix(BlobPrefix, DownloadPath(app), j);
  }

  /** Slices of `pre + path` past `pre` are slices of `path`. */
  lemma SliceAfterPrefix(pre: string, path: string, j: nat)
    requires j < |path|
    ensures StartsWith(pre + path, pre)
    ensures (pre + path)[|pre| + j] == path[j]
    ensures (pre + path)[|pre|..|pre| + j] == path[..j]
    ensures (pre + path)[|pre| + j + 1..] == path[j + 1..]
  {
    assert (pre + path)[..|pre|] == pre;
  }

  /** The name part of the link holds no slash. */
  lemma NamePartHasNoSlash(app: App)
    ensures '/' !in NamePart(app)
  {
    var name := SanitizeName(app.name);
    SanitizeNameIsSafe(app.name);
    forall i | 0 <= i < |name| ensures name[i] != '/' {
      assert IsNameChar(name[i]);
    }
  }

  /**
   * The path of the link has exactly one slash: before it the id, which reads back as
   * the app's id, after it the sanitized name and `.app`.
   */
  lemma DownloadPathSplits(app: App, k: nat)
    requires k == |IntToString(app.id)|
    ensures k < |DownloadPath(app)| && DownloadPath(app)[k] == '/'
    ensures DownloadPath(app)[..k] == IntToString(app.id)
    ensures '/' !in DownloadPath(app)[..k] && '/' !in DownloadPath(app)[k + 1..]
    ensures ParseInt(DownloadPath(app)[..k]) == Int(app.id)
    ensures DownloadPath(app)[k + 1..] == SanitizeName(app.name) + ".app"
  {
    SplitAtSlash(IntToString(app.id), NamePart(app));
    NamePartHasNoSlash(app);
    ParseIntToString(app.id);
  }

  /** `a + "/" + b` splits back into `a`, the slash and `b`. */
  lemma SplitAtSlash(a: string, b: string)
    ensures |a| < |a + ("/" + b)| && (a + ("/" + b))[|a|] == '/'
    ensures (a + ("/" + b))[..|a|] == a
    ensures (a + ("/" + b))[|a| + 1..] == b
  {
    assert (a + ("/" + b))[|a| + 1..] == ("/" + b)[1..];
  }
}
