/**
 * The string handling of hls-stats.go: `strings.Split` / `strings.Join` on "/",
 * the file-name half of `splitUrlString`, and the resolution of a segment URI
 * against the playlist URL in `fetchSegment`.
 */
module Urls {

  /** Number of occurrences of `c` in `s`. */
  function Occurrences(s: string, c: char): nat
  {
    if s == [] then 0 else (if s[0] == c then 1 else 0) + Occurrences(s[1..], c)
  }

  /** `strings.Split(s, string(sep))`: the pieces between separators, one more than there are separators. */
  function Split(s: string, sep: char): (parts: seq<string>)
    ensures |parts| == Occurrences(s, sep) + 1
    ensures forall k :: 0 <= k < |parts| ==> sep !in parts[k]
    decreases |s|
  {
    if s == [] then [""]
    else
      var rest := Split(s[1..], sep);
      if s[0] == sep then [""] + rest
      else [[s[0]] + rest[0]] + rest[1..]
  }

  /** `strings.Join(parts, string(sep))`. */
  function Join(parts: seq<string>, sep: char): string
  {
    if |parts| == 0 then ""
    else if |parts| == 1 then parts[0]
    else parts[0] + [sep] + Join(parts[1..], sep)
  }

  /** Gluing one more piece on at the end of a non-empty list adds a separator and the piece. */
  lemma {:induction false} JoinSnoc(parts: seq<string>, x: string, sep: char)
    requires |parts| >= 1
    ensures Join(parts + [x], sep) == Join(parts, sep) + [sep] + x
    decreases |parts|
  {
    if |parts| == 1 {
      assert parts + [x] == [parts[0], x];
      assert [x][1..] == [];
    } else {
      assert (parts + [x])[1..] == parts[1..] + [x];
      JoinSnoc(parts[1..], x, sep);
    }
  }

  /** Joining what was split gives back the original string. */
  lemma {:induction false} JoinSplit(s: string, sep: char)
    ensures Join(Split(s, sep), sep) == s
    decreases |s|
  {
    if s != [] {
      var rest := Split(s[1..], sep);
      JoinSplit(s[1..], sep);
      if s[0] == sep {
        assert Split(s, sep) == [""] + rest;
        assert ([""] + rest)[1..] == rest;
        assert s == [sep] + s[1..];
      } else {
        var parts := Split(s, sep);
        assert parts == [[s[0]] + rest[0]] + rest[1..];
        if |rest| == 1 {
          assert Join(rest, sep) == rest[0];
        } else {
          assert parts[1..] == rest[1..];
        }
        assert s == [s[0]] + s[1..];
      }
    }
  }

  /** A string without the separator splits into itself. */
  lemma {:induction false} SplitNoSeparator(p: string, sep: char)
    requires sep !in p
    ensures Split(p, sep) == [p]
    decreases |p|
  {
    if p != [] {
      SplitNoSeparator(p[1..], sep);
      assert p == [p[0]] + p[1..];
    }
  }

  /** Splitting `p + sep + t`, where `p` has no separator, yields `p` followed by the pieces of `t`. */
  lemma {:induction false} SplitSeparated(p: string, t: string, sep: char)
    requires sep !in p
    ensures Split(p + [sep] + t, sep) == [p] + Split(t, sep)
    decreases |p|
  {
    var s := p + [sep] + t;
    if p == [] {
      assert s[1..] == t;
    } else {
      assert s[1..] == p[1..] + [sep] + t;
      SplitSeparated(p[1..], t, sep);
      assert p == [p[0]] + p[1..];
    }
  }

  /** Splitting what was joined gives back the pieces, when no piece contains the separator. */
  lemma {:induction false} SplitJoin(parts: seq<string>, sep: char)
    requires |parts| >= 1
    requires forall k :: 0 <= k < |parts| ==> sep !in parts[k]
    ensures Split(Join(parts, sep), sep) == parts
    decreases |parts|
  {
    if |parts| == 1 {
      SplitNoSeparator(parts[0], sep);
    } else {
      SplitJoin(parts[1..], sep);
      SplitSeparated(parts[0], Join(parts[1..], sep), sep);
      assert parts == [parts[0]] + parts[1..];
    }
  }

  /** The file part of `splitUrlString`: the last "/"-separated component of the URL. */
  function FileName(url: string): string
  {
    var parts := Split(url, '/');
    parts[|parts| - 1]
  }

  /** Everything up to and including the last "/" of the URL ("" when there is none). */
  function Directory(url: string): string
  {
    var parts := Split(url, '/');
    if |parts| == 1 then "" else Join(parts[..|parts| - 1], '/') + "/"
  }

  /** "" or a string ending in "/". */
  predicate IsDirectory(d: string)
  {
    d == [] || d[|d| - 1] == '/'
  }

  /** The URL is its directory followed by its file name, and the file name holds no "/". */
  lemma FileNameSplitsUrl(url: string)
    ensures url == Directory(url) + FileName(url)
    ensures '/' !in FileName(url)
    ensures IsDirectory(Directory(url))
  {
    var parts := Split(url, '/');
    var last := parts[|parts| - 1];
    assert FileName(url) == last;
    assert '/' !in last;
    JoinSplit(url, '/');
    if |parts| > 1 {
      var init := parts[..|parts| - 1];
      var dir := Join(init, '/') + "/";
      assert Directory(url) == dir;
      assert parts == init + [last];
      JoinSnoc(init, last, '/');
      assert url == dir + last;
      assert dir[|dir| - 1] == '/';
    } else {
      assert Directory(url) == "";
      assert parts == [last];
    }
  }

  /** A directory/file decomposition of a URL is unique: it is the one FileName and Directory give. */
  lemma DecompositionUnique(url: string, d: string, f: string)
    requires url == d + f && IsDirectory(d) && '/' !in f
    ensures Directory(url) == d && FileName(url) == f
  {
    FileNameSplitsUrl(url);
    SlashFreeSuffix(url, Directory(url), FileName(url));
    SlashFreeSuffix(url, d, f);
    var D, F := Directory(url), FileName(url);
    assert |F| == |f|;
    assert F == url[|D|..] && f == url[|d|..];
    assert D == url[..|D|] && d == url[..|d|];
  }

  /** Where a directory/file decomposition puts the last "/" of the URL. */
  lemma SlashFreeSuffix(url: string, d: string, f: string)
    requires url == d + f && IsDirectory(d) && '/' !in f
    ensures forall j :: |url| - |f| <= j < |url| ==> url[j] != '/'
    ensures |d| > 0 ==> url[|url| - |f| - 1] == '/'
  {
    forall j | |url| - |f| <= j < |url|
      ensures url[j] != '/'
    {
      assert url[j] == f[j - |d|];
    }
  }

  /** `strings.HasPrefix(uri, "http")`: the test the listener uses for an absolute segment URI. */
  predicate IsAbsolute(uri: string)
  {
    "http" <= uri
  }

  /** The segment URL of `fetchSegment`: a relative URI replaces the last component of the playlist URL. */
  function ResolveSegmentUri(playlistUrl: string, uri: string): string
  {
    if IsAbsolute(uri) then uri
    else
      var components := Split(playlistUrl, '/');
      Join(components[..|components| - 1] + [uri], '/')
  }

  /** An absolute URI is used unchanged; a relative one is appended to the directory of the playlist URL. */
  lemma ResolveSegmentUriSpec(playlistUrl: string, uri: string)
    ensures IsAbsolute(uri) ==> ResolveSegmentUri(playlistUrl, uri) == uri
    ensures !IsAbsolute(uri) ==> ResolveSegmentUri(playlistUrl, uri) == Directory(playlistUrl) + uri
  {
    if !IsAbsolute(uri) {
      var components := Split(playlistUrl, '/');
      var init := components[..|components| - 1];
      if |init| >= 1 {
        JoinSnoc(init, uri, '/');
      }
    }
  }

  /** A relative URI without "/" takes the place of the playlist's file name and keeps its directory. */
  lemma ResolveReplacesFileName(playlistUrl: string, uri: string)
    requires !IsAbsolute(uri) && '/' !in uri
    ensures Directory(ResolveSegmentUri(playlistUrl, uri)) == Directory(playlistUrl)
    ensures FileName(ResolveSegmentUri(playlistUrl, uri)) == uri
  {
    ResolveSegmentUriSpec(playlistUrl, uri);
    FileNameSplitsUrl(playlistUrl);
    DecompositionUnique(ResolveSegmentUri(playlistUrl, uri), Directory(playlistUrl), uri);
  }

  /** A relative URI resolved against `dir + file` is `dir + uri`. */
  lemma ResolveInDirectory(dir: string, file: string, uri: string)
    requires IsDirectory(dir) && '/' !in file && !IsAbsolute(uri)
    ensures ResolveSegmentUri(dir + file, uri) == dir + uri
  {
    DecompositionUnique(dir + file, dir, file);
    ResolveSegmentUriSpec(dir + file, uri);
  }

  /** The worked example: "seg3.ts" under "http://host/live/index.m3u8". */
  lemma ResolveExample(playlistUrl: string, uri: string)
    requires playlistUrl == "http://host/live/index.m3u8" && uri == "seg3.ts"
    ensures ResolveSegmentUri(playlistUrl, uri) == "http://host/live/seg3.ts"
  {
    var dir, file := "http://host/live/", "index.m3u8";
    assert '/' !in file;
    assert uri[0] != "http"[0];
    assert playlistUrl == dir + file;
    ResolveInDirectory(dir, file, uri);
    assert dir + uri == "http://host/live/seg3.ts";
  }

  /** A relative URI whose name merely starts with "http" is taken as absolute and used unchanged. */
  lemma HttpNamedRelativeUriKept()
    ensures ResolveSegmentUri("http://host/live/index.m3u8", "http_seg3.ts") == "http_seg3.ts"
  {
    assert "http" <= "http_seg3.ts";
  }
}
