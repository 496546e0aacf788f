/**
 * URLs as the `url` crate represents them, and reference resolution (`Url::join`) for
 * path-absolute and relative-path references, using the merge and dot-segment removal of
 * sections 5.2.3 and 5.2.4 of RFC 3986. The crate follows the WHATWG URL standard, which
 * also percent-encodes some characters and reads percent-encoded dots as dot segments;
 * neither is modelled.
 * Parsing a URL from text is not part of this model: it is the parameter `parse`.
 */
module Urls {

  import opened Wrappers
  import opened Text

  /**
   * A parsed URL. `port` is the explicit port, which the `url` crate drops when it is the
   * scheme's default; `path` is the serialized path; userinfo and fragment are not modelled.
   */
  datatype Url = Url(scheme: string, host: Option<string>, port: Option<nat>, path: string, query: Option<string>)

  /** `url::Url::parse`: the URL, or the text of the `ParseError`. */
  type UrlParser = string -> Result<Url, string>

  /** `Url::port_or_known_default`'s table of default ports. */
  function KnownDefaultPort(scheme: string): Option<nat> {
    if scheme == "http" || scheme == "ws" then Some(80)
    else if scheme == "https" || scheme == "wss" then Some(443)
    else if scheme == "ftp" then Some(21)
    else None
  }

  function PortOrKnownDefault(u: Url): Option<nat> {
    if u.port.Some? then u.port else KnownDefaultPort(u.scheme)
  }

  /** `Url::as_str` / `Display`: scheme, authority when there is a host, path, query. */
  function Serialize(u: Url): string {
    u.scheme + ":"
    + (match u.host
       case Some(h) => "//" + h + (match u.port case Some(p) => ":" + NatToString(p) case None => "")
       case None => "")
    + u.path
    + (match u.query case Some(q) => "?" + q case None => "")
  }

  /** A URL with no host whose path does not start with `/` (`mailto:x`): nothing resolves against it. */
  predicate CannotBeABase(u: Url) {
    u.host.None? && !StartsWith(u.path, "/")
  }

  const CannotBeABaseError := "relative URL with a cannot-be-a-base base"

  // ---- path segments ----

  predicate NoSlash(s: string) {
    forall i :: 0 <= i < |s| ==> s[i] != '/'
  }

  /** The `/`-separated pieces of a string; there is always at least one. */
  function Split(p: string): (segs: seq<string>)
    ensures |segs| >= 1
    ensures forall i :: 0 <= i < |segs| ==> NoSlash(segs[i])
  {
    if p == [] then [""]
    else if p[0] == '/' then [""] + Split(p[1..])
    else
      var rest := Split(p[1..]);
      [[p[0]] + rest[0]] + rest[1..]
  }

  function JoinSegments(segs: seq<string>): string
    requires |segs| >= 1
  {
    if |segs| == 1 then segs[0] else segs[0] + "/" + JoinSegments(segs[1..])
  }

  /** Putting the pieces back together gives the string. */
  lemma {:induction false} JoinSplit(p: string)
    ensures JoinSegments(Split(p)) == p
  {
    if p != [] {
      JoinSplit(p[1..]);
      var rest := Split(p[1..]);
      if p[0] != '/' && |rest| > 1 {
        assert JoinSegments(rest) == rest[0] + "/" + JoinSegments(rest[1..]);
      }
    }
  }

  lemma {:induction false} SplitPrefix(a: string, b: string)
    requires NoSlash(a)
    ensures Split(a + b) == [a + Split(b)[0]] + Split(b)[1..]
  {
    if a != [] {
      assert (a + b)[0] == a[0] != '/';
      assert (a + b)[1..] == a[1..] + b;
      SplitPrefix(a[1..], b);
      assert [a[0]] + (a[1..] + Split(b)[0]) == a + Split(b)[0];
    } else {
      assert a + b == b;
      assert a + Split(b)[0] == Split(b)[0];
      assert [Split(b)[0]] + Split(b)[1..] == Split(b);
    }
  }

  lemma SplitNoSlash(s: string)
    requires NoSlash(s)
    ensures Split(s) == [s]
  {
    SplitPrefix(s, "");
    assert s + "" == s;
  }

  /** Splitting pieces that hold no `/` gives the pieces back. */
  lemma {:induction false} SplitJoin(segs: seq<string>)
    requires |segs| >= 1
    requires forall i :: 0 <= i < |segs| ==> NoSlash(segs[i])
    ensures Split(JoinSegments(segs)) == segs
  {
    if |segs| == 1 {
      SplitPrefix(segs[0], "");
      assert segs[0] + "" == segs[0];
    } else {
      SplitJoin(segs[1..]);
      var tail := JoinSegments(segs[1..]);
      assert JoinSegments(segs) == segs[0] + ("/" + tail);
      SplitPrefix(segs[0], "/" + tail);
      assert ("/" + tail)[0] == '/' && ("/" + tail)[1..] == tail;
      assert Split("/" + tail) == [""] + segs[1..];
      assert ([""] + segs[1..])[0] == "" && ([""] + segs[1..])[1..] == segs[1..];
      assert segs[0] + "" == segs[0];
      assert segs == [segs[0]] + segs[1..];
    }
  }

  predicate IsDot(s: string) {
    s == "." || s == ".."
  }

  predicate NoDots(segs: seq<string>) {
    forall i :: 0 <= i < |segs| ==> !IsDot(segs[i])
  }

  predicate Clean(segs: seq<string>) {
    forall i :: 0 <= i < |segs| ==> NoSlash(segs[i]) && !IsDot(segs[i])
  }

  /**
   * Section 5.2.4 of RFC 3986 on segments: `.` is dropped, `..` drops the segment before it,
   * and a trailing `.` or `..` leaves the path ending in `/`.
   */
  function Normalize(segs: seq<string>, acc: seq<string>): (r: seq<string>)
    requires Clean(acc)
    requires forall i :: 0 <= i < |segs| ==> NoSlash(segs[i])
    ensures Clean(r)
    ensures |segs| >= 1 ==> |r| >= 1
    decreases |segs|
  {
    if segs == [] then acc
    else if IsDot(segs[0]) then
      var acc' := if segs[0] == ".." && |acc| > 0 then acc[..|acc| - 1] else acc;
      if |segs| == 1 then acc' + [""] else Normalize(segs[1..], acc')
    else Normalize(segs[1..], acc + [segs[0]])
  }

  lemma {:induction false} NormalizeNoDots(segs: seq<string>, acc: seq<string>)
    requires Clean(acc)
    requires Clean(segs)
    ensures Normalize(segs, acc) == acc + segs
    decreases |segs|
  {
    if segs != [] {
      NormalizeNoDots(segs[1..], acc + [segs[0]]);
      assert acc + [segs[0]] + segs[1..] == acc + segs;
    }
  }

  /** An absolute path none of whose segments is `.` or `..`. */
  predicate DotFree(p: string) {
    StartsWith(p, "/") && NoDots(Split(p[1..]))
  }

  /** Dot-segment removal on an absolute path. */
  function RemoveDots(p: string): (r: string)
    requires StartsWith(p, "/")
    ensures DotFree(r)
  {
    var segs := Normalize(Split(p[1..]), []);
    var r := "/" + JoinSegments(segs);
    assert r[1..] == JoinSegments(segs);
    SplitJoin(segs);
    r
  }

  /** A path with no dot segments is left as it is; so removing dots twice is removing them once. */
  lemma RemoveDotsIdentity(p: string)
    requires DotFree(p)
    ensures RemoveDots(p) == p
  {
    NormalizeNoDots(Split(p[1..]), []);
    assert [] + Split(p[1..]) == Split(p[1..]);
    JoinSplit(p[1..]);
    assert p == "/" + p[1..];
  }

  lemma RemoveDotsIdempotent(p: string)
    requires StartsWith(p, "/")
    ensures RemoveDots(RemoveDots(p)) == RemoveDots(p)
  {
    RemoveDotsIdentity(RemoveDots(p));
  }

  /** At segment level, a clean segment followed by `..` cancels out, wherever the pair stands. */
  lemma {:induction false} NormalizeDotDot(pre: seq<string>, s: string, post: seq<string>, acc: seq<string>)
    requires Clean(acc)
    requires forall i :: 0 <= i < |pre| ==> NoSlash(pre[i])
    requires NoSlash(s) && !IsDot(s)
    requires |post| >= 1 && forall i :: 0 <= i < |post| ==> NoSlash(post[i])
    ensures Normalize(pre + [s, ".."] + post, acc) == Normalize(pre + post, acc)
    decreases |pre|
  {
    var lhs, rhs := pre + [s, ".."] + post, pre + post;
    if pre == [] {
      assert lhs == [s] + ([".."] + post) && rhs == post;
      assert lhs[1..] == [".."] + post && ([".."] + post)[1..] == post;
      assert (acc + [s])[..|acc + [s]| - 1] == acc;
    } else {
      assert lhs[0] == rhs[0] == pre[0];
      assert lhs[1..] == pre[1..] + [s, ".."] + post && rhs[1..] == pre[1..] + post;
      if IsDot(pre[0]) {
        var acc' := if pre[0] == ".." && |acc| > 0 then acc[..|acc| - 1] else acc;
        NormalizeDotDot(pre[1..], s, post, acc');
      } else {
        NormalizeDotDot(pre[1..], s, post, acc + [pre[0]]);
      }
    }
  }

  /**
   * At segment level, a final `..` removes the segment before it and leaves the path ending
   * in `/`: the pair resolves as one empty last segment.
   */
  lemma {:induction false} NormalizeTrailingDotDot(pre: seq<string>, s: string, acc: seq<string>)
    requires Clean(acc)
    requires forall i :: 0 <= i < |pre| ==> NoSlash(pre[i])
    requires NoSlash(s) && !IsDot(s)
    ensures Normalize(pre + [s, ".."], acc) == Normalize(pre + [""], acc)
    decreases |pre|
  {
    var lhs, rhs := pre + [s, ".."], pre + [""];
    if pre == [] {
      assert lhs == [s, ".."] && lhs[1..] == [".."] && rhs == [""] && rhs[1..] == [];
      assert (acc + [s])[..|acc + [s]| - 1] == acc;
    } else {
      assert lhs[0] == rhs[0] == pre[0];
      assert lhs[1..] == pre[1..] + [s, ".."] && rhs[1..] == pre[1..] + [""];
      if IsDot(pre[0]) {
        var acc' := if pre[0] == ".." && |acc| > 0 then acc[..|acc| - 1] else acc;
        NormalizeTrailingDotDot(pre[1..], s, acc');
      } else {
        NormalizeTrailingDotDot(pre[1..], s, acc + [pre[0]]);
      }
    }
  }

  /** At segment level, a final `.` resolves as one empty last segment: the path ends in `/`. */
  lemma {:induction false} NormalizeTrailingDot(pre: seq<string>, acc: seq<string>)
    requires Clean(acc)
    requires forall i :: 0 <= i < |pre| ==> NoSlash(pre[i])
    ensures Normalize(pre + ["."], acc) == Normalize(pre + [""], acc)
    decreases |pre|
  {
    var lhs, rhs := pre + ["."], pre + [""];
    if pre == [] {
      assert lhs == ["."] && rhs == [""] && rhs[1..] == [];
    } else {
      assert lhs[0] == rhs[0] == pre[0];
      assert lhs[1..] == pre[1..] + ["."] && rhs[1..] == pre[1..] + [""];
      if IsDot(pre[0]) {
        var acc' := if pre[0] == ".." && |acc| > 0 then acc[..|acc| - 1] else acc;
        NormalizeTrailingDot(pre[1..], acc');
      } else {
        NormalizeTrailingDot(pre[1..], acc + [pre[0]]);
      }
    }
  }

  /** At segment level, a `.` that is not the last segment is dropped with nothing else. */
  lemma {:induction false} NormalizeDot(pre: seq<string>, post: seq<string>, acc: seq<string>)
    requires Clean(acc)
    requires forall i :: 0 <= i < |pre| ==> NoSlash(pre[i])
    requires |post| >= 1 && forall i :: 0 <= i < |post| ==> NoSlash(post[i])
    ensures Normalize(pre + ["."] + post, acc) == Normalize(pre + post, acc)
    decreases |pre|
  {
    var lhs, rhs := pre + ["."] + post, pre + post;
    if pre == [] {
      assert lhs == ["."] + post && lhs[1..] == post && rhs == post;
    } else {
      assert lhs[0] == rhs[0] == pre[0];
      assert lhs[1..] == pre[1..] + ["."] + post && rhs[1..] == pre[1..] + post;
      if IsDot(pre[0]) {
        var acc' := if pre[0] == ".." && |acc| > 0 then acc[..|acc| - 1] else acc;
        NormalizeDot(pre[1..], post, acc');
      } else {
        NormalizeDot(pre[1..], post, acc + [pre[0]]);
      }
    }
  }

  predicate Slashless(segs: seq<string>) {
    forall i :: 0 <= i < |segs| ==> NoSlash(segs[i])
  }

  lemma SlashlessConcat(a: seq<string>, b: seq<string>)
    requires Slashless(a) && Slashless(b)
    ensures Slashless(a + b)
  {
    forall i | 0 <= i < |a + b| ensures NoSlash((a + b)[i]) {
      if i >= |a| { assert (a + b)[i] == b[i - |a|]; }
    }
  }

  lemma SlashlessAround(pre: seq<string>, mid: seq<string>, post: seq<string>)
    requires Slashless(pre) && Slashless(mid) && Slashless(post)
    ensures Slashless(pre + mid + post) && Slashless(pre + post)
  {
    SlashlessConcat(pre, mid);
    SlashlessConcat(pre + mid, post);
    SlashlessConcat(pre, post);
  }

  /** On a path built from segments, dot removal is the segment-level normalisation. */
  lemma RemoveDotsSegments(segs: seq<string>)
    requires |segs| >= 1 && Slashless(segs)
    ensures RemoveDots("/" + JoinSegments(segs)) == "/" + JoinSegments(Normalize(segs, []))
  {
    assert ("/" + JoinSegments(segs))[1..] == JoinSegments(segs);
    SplitJoin(segs);
  }

  /**
   * `..` removes the segment before it: in any absolute path, a segment `s` (not itself a dot
   * segment) followed by `..` and more segments resolves as if both were absent.
   */
  lemma DotDotRemovesPrevious(pre: seq<string>, s: string, post: seq<string>)
    requires Slashless(pre) && Slashless(post) && |post| >= 1
    requires NoSlash(s) && !IsDot(s)
    ensures RemoveDots("/" + JoinSegments(pre + [s, ".."] + post)) == RemoveDots("/" + JoinSegments(pre + post))
  {
    SlashlessAround(pre, [s, ".."], post);
    NormalizeDotDot(pre, s, post, []);
    RemoveDotsSegments(pre + [s, ".."] + post);
    RemoveDotsSegments(pre + post);
  }

  /** A `.` segment that is not the last one is dropped and changes nothing else. */
  lemma DotDropped(pre: seq<string>, post: seq<string>)
    requires Slashless(pre) && Slashless(post) && |post| >= 1
    ensures RemoveDots("/" + JoinSegments(pre + ["."] + post)) == RemoveDots("/" + JoinSegments(pre + post))
  {
    SlashlessAround(pre, ["."], post);
    NormalizeDot(pre, post, []);
    RemoveDotsSegments(pre + ["."] + post);
    RemoveDotsSegments(pre + post);
  }

  /** A final `..` removes the segment before it and keeps the trailing `/`. */
  lemma TrailingDotDot(pre: seq<string>, s: string)
    requires Slashless(pre)
    requires NoSlash(s) && !IsDot(s)
    ensures RemoveDots("/" + JoinSegments(pre + [s, ".."])) == RemoveDots("/" + JoinSegments(pre + [""]))
  {
    SlashlessAround(pre, [s, ".."], []);
    SlashlessAround(pre, [""], []);
    assert pre + [s, ".."] + [] == pre + [s, ".."] && pre + [""] + [] == pre + [""];
    NormalizeTrailingDotDot(pre, s, []);
    RemoveDotsSegments(pre + [s, ".."]);
    RemoveDotsSegments(pre + [""]);
  }

  /** A final `.` is dropped and keeps the trailing `/`. */
  lemma TrailingDot(pre: seq<string>)
    requires Slashless(pre)
    ensures RemoveDots("/" + JoinSegments(pre + ["."])) == RemoveDots("/" + JoinSegments(pre + [""]))
  {
    SlashlessAround(pre, ["."], []);
    SlashlessAround(pre, [""], []);
    assert pre + ["."] + [] == pre + ["."] && pre + [""] + [] == pre + [""];
    NormalizeTrailingDot(pre, []);
    RemoveDotsSegments(pre + ["."]);
    RemoveDotsSegments(pre + [""]);
  }

  /** `..` at the root stays at the root: a leading `..` is dropped. */
  lemma DotDotAtRoot(post: seq<string>)
    requires Slashless(post) && |post| >= 1
    ensures RemoveDots("/" + JoinSegments([".."] + post)) == RemoveDots("/" + JoinSegments(post))
  {
    var up := [".."];
    var lhs := up + post;
    assert Slashless(up);
    SlashlessConcat(up, post);
    RemoveDotsSegments(lhs);
    RemoveDotsSegments(post);
    assert lhs[0] == ".." && lhs[1..] == post;
    assert Normalize(lhs, []) == Normalize(post, []);
  }

  /** The path `/..` is the root. */
  lemma RootParent(p: string)
    requires p == "/.."
    ensures RemoveDots(p) == "/"
  {
    assert p == "/" + JoinSegments([".."]);
    assert Slashless([".."]);
    RemoveDotsSegments([".."]);
    assert Normalize([".."], []) == [""];
  }

  /** The textbook case: `/a/b/../c` is `/a/c`. */
  lemma DotDotExample(p: string, q: string)
    requires p == "/a/b/../c" && q == "/a/c"
    ensures RemoveDots(p) == q
  {
    var pre, post := ["a"], ["c"];
    assert JoinSegments(post) == "c";
    assert JoinSegments([".."] + post) == "../c";
    var full := pre + ["b", ".."] + post;
    assert full[1..] == ["b", ".."] + post && full[0] == "a";
    assert JoinSegments(["b", ".."] + post) == "b/../c";
    assert JoinSegments(full) == "a" + "/" + "b/../c" == "a/b/../c";
    assert JoinSegments(pre + post) == "a/c";
    DotDotRemovesPrevious(pre, "b", post);
    assert NoDots(Split(q[1..])) by {
      SplitJoin(pre + post);
    }
    RemoveDotsIdentity(q);
  }

  /** `/a/b/..` is `/a/`, with the trailing slash kept. */
  lemma TrailingDotDotExample(p: string, q: string)
    requires p == "/a/b/.." && q == "/a/"
    ensures RemoveDots(p) == q
  {
    var pre := ["a"];
    var full := pre + ["b", ".."];
    assert full[0] == "a" && full[1..] == ["b", ".."];
    assert JoinSegments([".."]) == "..";
    assert JoinSegments(["b", ".."]) == "b/..";
    assert JoinSegments(full) == "a" + "/" + "b/.." == "a/b/..";
    var emptied := pre + [""];
    assert emptied[0] == "a" && emptied[1..] == [""];
    assert JoinSegments(emptied) == "a" + "/" + "" == "a/";
    TrailingDotDot(pre, "b");
    assert NoDots(Split(q[1..])) by {
      SplitJoin(emptied);
    }
    RemoveDotsIdentity(q);
  }

  // ---- references ----

  predicate IsAlpha(c: char) {
    ('a' <= c <= 'z') || ('A' <= c <= 'Z')
  }

  predicate IsSchemeChar(c: char) {
    IsAlpha(c) || IsDigit(c) || c == '+' || c == '-' || c == '.'
  }

  predicate SchemeTail(s: string) {
    |s| > 0 && (s[0] == ':' || (IsSchemeChar(s[0]) && SchemeTail(s[1..])))
  }

  /** The reference begins with `scheme:` (section 3.1 of RFC 3986). */
  predicate HasScheme(r: string) {
    |r| > 0 && IsAlpha(r[0]) && SchemeTail(r[1..])
  }

  /** A reference cut at its first `?` into path and query. */
  function SplitQuery(r: string): (pq: (string, Option<string>))
    ensures '?' !in pq.0
    ensures r == pq.0 + (match pq.1 case Some(q) => "?" + q case None => "")
  {
    if r == [] then ("", None)
    else if r[0] == '?' then ("", Some(r[1..]))
    else
      var (p, q) := SplitQuery(r[1..]);
      ([r[0]] + p, q)
  }

  lemma {:induction false} SplitQueryAt(r: string, i: nat)
    requires i < |r| && r[i] == '?'
    requires forall j :: 0 <= j < i ==> r[j] != '?'
    ensures SplitQuery(r) == (r[..i], Some(r[i + 1..]))
  {
    if i > 0 {
      SplitQueryAt(r[1..], i - 1);
      assert [r[0]] + r[1..][..i - 1] == r[..i];
    }
  }

  lemma {:induction false} SplitQueryNone(r: string)
    requires '?' !in r
    ensures SplitQuery(r) == (r, None)
  {
    if r != [] {
      SplitQueryNone(r[1..]);
      assert [r[0]] + r[1..] == r;
    }
  }

  /** The base path up to and including its last `/`: the directory a relative reference is read in. */
  function Directory(p: string): (d: string)
    requires '/' in p
    ensures 1 <= |d| <= |p| && d == p[..|d|] && d[|d| - 1] == '/'
    ensures forall i :: |d| <= i < |p| ==> p[i] != '/'
  {
    if p[|p| - 1] == '/' then p
    else
      var init := p[..|p| - 1];
      assert '/' in init by {
        var k :| 0 <= k < |p| && p[k] == '/';
        assert init[k] == '/';
      }
      var d := Directory(init);
      assert d == p[..|d|];
      d
  }

  /**
   * Section 5.2.3 of RFC 3986: the reference path stands in place of the base path's last
   * segment; a base path with no `/` at all (an authority with an empty path) counts as `/`.
   * A path with a host always starts with `/` in the `url` crate, so the `/` put in front of
   * a directory that lacks one only keeps the result absolute.
   */
  function Merge(basePath: string, refPath: string): (m: string)
    ensures StartsWith(m, "/")
    ensures '/' !in basePath ==> m == "/" + refPath
    ensures '/' in basePath && StartsWith(basePath, "/") ==> m == Directory(basePath) + refPath
  {
    if '/' !in basePath then "/" + refPath
    else
      var d := Directory(basePath);
      if d[0] == '/' then d + refPath else "/" + d + refPath
  }

  /** Two pinned merges: a base ending in `/` keeps all of itself, one that does not loses its last segment. */
  lemma MergeExamples(dir: string, file: string, r: string)
    requires dir == "/v1/" && file == "/v1" && r == "users"
    ensures Merge(dir, r) == "/v1/users"
    ensures Merge(file, r) == "/users"
  {
    assert dir[|dir| - 1] == '/';
    assert file[..|file| - 1] == "/v";
    assert file[..|file| - 1][..1] == "/";
    assert '/' in file && '/' in dir;
  }

  /**
   * `Url::join`. A reference with a scheme, or one starting with `//` (which names its own
   * authority), is parsed as a URL in its own right; every other reference keeps the base's
   * scheme, host and port, and its path is resolved against the base path as section 5.2.2
   * of RFC 3986 lays out (no percent-encoding of the result).
   */
  function Join(base: Url, r: string, parse: UrlParser): Result<Url, string> {
    if HasScheme(r) then parse(r)
    else if StartsWith(r, "//") then parse(base.scheme + ":" + r)
    else if CannotBeABase(base) then Failure(CannotBeABaseError)
    else
      var (rpath, rquery) := SplitQuery(r);
      if rpath == "" then Success(base.(query := if rquery.Some? then rquery else base.query))
      else if rpath[0] == '/' then Success(base.(path := RemoveDots(rpath), query := rquery))
      else Success(base.(path := RemoveDots(Merge(base.path, rpath)), query := rquery))
  }

  /** A reference of the form `/path?query` (the path-absolute case, not `//authority`). */
  predicate IsPathAbsolute(r: string) {
    StartsWith(r, "/") && !StartsWith(r, "//")
  }

  /**
   * Joining a path-absolute reference: scheme, host and port come from the base, the base path
   * is replaced by the reference's (dot segments removed), and the query is the reference's.
   */
  lemma JoinPathAbsolute(base: Url, r: string, parse: UrlParser)
    requires IsPathAbsolute(r)
    requires !CannotBeABase(base)
    ensures var (rpath, rquery) := SplitQuery(r);
      Join(base, r, parse) == Success(Url(base.scheme, base.host, base.port, RemoveDots(rpath), rquery))
  {
    var (rpath, rquery) := SplitQuery(r);
    assert r[0] == '/';
    assert r == rpath + (match rquery case Some(q) => "?" + q case None => "");
    assert rpath[0] == '/';
  }

  /** The pinned example: `https://api.example.com/v1` joined with `/users?id=5`. */
  lemma JoinReplacesBasePath(base: Url, r: string, parse: UrlParser)
    requires base == Url("https", Some("api.example.com"), None, "/v1", None)
    requires r == "/users?id=5"
    ensures Join(base, r, parse) == Success(Url("https", Some("api.example.com"), None, "/users", Some("id=5")))
  {
    assert IsPathAbsolute(r) by {
      assert r[..1] == "/";
      assert r[1] != '/';
    }
    JoinPathAbsolute(base, r, parse);
    SplitQueryAt(r, 6);
    assert r[..6] == "/users" && r[7..] == "id=5";
    var p := r[..6];
    assert DotFree(p) by {
      assert p[..1] == "/" && p[1..] == "users";
      SplitNoSlash(p[1..]);
    }
    RemoveDotsIdentity(p);
  }

  /**
   * Joining a relative-path reference (no scheme, not starting with `/` or `?`): scheme, host
   * and port come from the base, the path is the merge with the base directory, dot segments
   * removed, and the query is the reference's.
   */
  lemma JoinRelativePath(base: Url, r: string, parse: UrlParser)
    requires !CannotBeABase(base) && !HasScheme(r)
    requires |r| > 0 && r[0] != '/' && r[0] != '?'
    ensures var (rpath, rquery) := SplitQuery(r);
      Join(base, r, parse) == Success(Url(base.scheme, base.host, base.port, RemoveDots(Merge(base.path, rpath)), rquery))
  {
    assert !StartsWith(r, "//") by {
      if |r| >= 2 {
        assert r[..2][0] == r[0];
      }
    }
    var pq := SplitQuery(r);
    assert pq.0 != "" && pq.0[0] == r[0] by {
      if r[0] != '?' {
        assert pq.0 == [r[0]] + SplitQuery(r[1..]).0;
      }
    }
  }

  /**
   * The asterisk form (`OPTIONS *`): `*` against `https://h/v1` replaces the last segment `v1`,
   * giving the path slash-asterisk.
   */
  lemma JoinAsterisk(base: Url, r: string, parse: UrlParser)
    requires base == Url("https", Some("h"), None, "/v1", None) && r == "*"
    ensures Join(base, r, parse) == Success(Url("https", Some("h"), None, "/*", None))
  {
    SplitQueryNone(r);
    JoinRelativePath(base, r, parse);
    var bp := base.path;
    assert bp[..|bp| - 1] == "/v" && "/v"[..1] == "/";
    assert '/' in bp;
    assert Merge(bp, r) == "/*";
    var p := "/*";
    assert DotFree(p) by {
      assert p[1..] == "*";
      SplitNoSlash(p[1..]);
    }
    RemoveDotsIdentity(p);
  }
}
