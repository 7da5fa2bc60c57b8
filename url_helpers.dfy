/** Turning the backend's media paths into absolute URLs, on the client
    and during server rendering. The environment (`NEXT_PUBLIC_API_URL`,
    `SERVER_API_URL`, and whether `window` exists) is an input. */
module UrlHelpers {
  import opened Wrappers
  import opened Strings

  datatype Env = Env(isClient: bool, publicApiUrl: Option<string>, serverApiUrl: Option<string>)

  const ClientDefault: string := "http://localhost:8088"
  const ServerDefault: string := "http://yueswater-server:8088"

  /** `v?.replace("/api", "")`: only the first `/api` goes. */
  function StripApi(v: Option<string>): (r: Option<string>)
    ensures r.Some? <==> v.Some?
    ensures v.Some? ==> r.value == ReplaceFirst(v.value, "/api", "")
  {
    if v.Some? then Some(ReplaceFirst(v.value, "/api", "")) else None
  }

  predicate Truthy(v: Option<string>) {
    v.Some? && v.value != ""
  }

  /** The media host: on the client the public URL or the local default;
      on the server the server URL, then the public URL, then the
      container default. Never empty. */
  function BaseUrl(env: Env): (r: string)
    ensures r != ""
    ensures env.isClient ==>
      r == (if Truthy(StripApi(env.publicApiUrl)) then StripApi(env.publicApiUrl).value else ClientDefault)
    ensures !env.isClient ==>
      r == (if Truthy(StripApi(env.serverApiUrl)) then StripApi(env.serverApiUrl).value
            else if Truthy(StripApi(env.publicApiUrl)) then StripApi(env.publicApiUrl).value
            else ServerDefault)
  {
    var publicUrl := StripApi(env.publicApiUrl);
    var serverUrl := StripApi(env.serverApiUrl);
    if env.isClient then (if Truthy(publicUrl) then publicUrl.value else ClientDefault)
    else if Truthy(serverUrl) then serverUrl.value
    else if Truthy(publicUrl) then publicUrl.value
    else ServerDefault
  }

  predicate EndsAuthority(c: char) {
    c == '/' || c == '?' || c == '#'
  }

  /** Index of the first character satisfying `EndsAuthority`, or `|s|`. */
  function AuthorityEnd(s: string): (i: nat)
    ensures i <= |s|
    ensures forall k :: 0 <= k < i ==> !EndsAuthority(s[k])
    ensures i < |s| ==> EndsAuthority(s[i])
  {
    if s == [] || EndsAuthority(s[0]) then 0 else 1 + AuthorityEnd(s[1..])
  }

  /** Index of the first `?` or `#`, or `|s|`. */
  function PathEnd(s: string): (i: nat)
    ensures i <= |s|
    ensures forall k :: 0 <= k < i ==> s[k] != '?' && s[k] != '#'
    ensures i < |s| ==> s[i] == '?' || s[i] == '#'
  {
    if s == [] || s[0] == '?' || s[0] == '#' then 0 else 1 + PathEnd(s[1..])
  }

  /** `new URL(url).pathname` for `http://host...` and `https://host...`
      URLs; anything else counts as a parse failure. */
  function UrlPathname(url: string): (r: Option<string>)
    ensures r.Some? ==> StartsWith(r.value, "/")
    ensures r.Some? ==> forall k :: 0 <= k < |r.value| ==> r.value[k] != '?' && r.value[k] != '#'
  {
    var scheme := if StartsWith(url, "http://") then 7 else if StartsWith(url, "https://") then 8 else 0;
    if scheme == 0 then None
    else
      var after := url[scheme..];
      var h := AuthorityEnd(after);
      if h == 0 then None
      else
        var rest := after[h..];
        if rest != [] && rest[0] == '/' then Some(rest[..PathEnd(rest)]) else Some("/")
  }

  /** A URL on some other host, left alone. */
  predicate IsExternal(path: string) {
    StartsWith(path, "http") && !Contains(path, "yueswater-server") && !Contains(path, "localhost")
  }

  /** `getFullImageUrl`. */
  function GetFullImageUrl(path: Option<string>, env: Env): (r: string)
    ensures path.None? || path.value == "" ==> r == ""
    ensures path.Some? && IsExternal(path.value) ==> r == path.value
    ensures path.Some? && path.value != "" && !StartsWith(path.value, "http") ==>
      r == BaseUrl(env) + (if StartsWith(path.value, "/") then path.value else "/" + path.value)
    ensures path.Some? && StartsWith(path.value, "http") && !IsExternal(path.value) ==>
      r == (if UrlPathname(path.value).Some? then BaseUrl(env) + UrlPathname(path.value).value else path.value)
  {
    if path.None? || path.value == "" then ""
    else
      var p := path.value;
      if IsExternal(p) then p
      else
        var internalPath := if StartsWith(p, "http") then UrlPathname(p) else Some(p);
        if internalPath.None? then p
        else
          var clean := if StartsWith(internalPath.value, "/") then internalPath.value else "/" + internalPath.value;
          BaseUrl(env) + clean
  }

  /** An internal absolute URL is re-rooted on the current media host,
      keeping its path and dropping its query and fragment. */
  lemma InternalUrlRehosted(host: string, pathname: string, query: string, env: Env)
    requires host != "" && forall k :: 0 <= k < |host| ==> !EndsAuthority(host[k])
    requires StartsWith(pathname, "/") && forall k :: 0 <= k < |pathname| ==> pathname[k] != '?' && pathname[k] != '#'
    requires query != [] && query[0] == '?'
    ensures GetFullImageUrl(Some("http://" + host + pathname + query), env) ==
      (if IsExternal("http://" + host + pathname + query) then "http://" + host + pathname + query
       else BaseUrl(env) + pathname)
  {
    var url := "http://" + host + pathname + query;
    PathnameOfHttpUrl(host, pathname, query);
    assert url[..4] == "http";
  }

  /** `new URL("http://" + host + pathname + query).pathname` is `pathname`. */
  lemma PathnameOfHttpUrl(host: string, pathname: string, query: string)
    requires host != "" && forall k :: 0 <= k < |host| ==> !EndsAuthority(host[k])
    requires StartsWith(pathname, "/") && forall k :: 0 <= k < |pathname| ==> pathname[k] != '?' && pathname[k] != '#'
    requires query != [] && query[0] == '?'
    ensures UrlPathname("http://" + host + pathname + query) == Some(pathname)
  {
    var url := "http://" + host + pathname + query;
    assert url[..7] == "http://";
    var after := url[7..];
    assert after == host + pathname + query;
    assert AuthorityEnd(after) == |host| by {
      AuthorityEndAt(after, |host|);
    }
    var rest := after[|host|..];
    assert rest == pathname + query;
    assert PathEnd(rest) == |pathname| by {
      PathEndAt(rest, |pathname|);
    }
    assert rest[..|pathname|] == pathname;
  }

  lemma {:induction false} AuthorityEndAt(s: string, i: nat)
    requires i < |s| && EndsAuthority(s[i]) && forall k :: 0 <= k < i ==> !EndsAuthority(s[k])
    ensures AuthorityEnd(s) == i
  {
    if i > 0 {
      AuthorityEndAt(s[1..], i - 1);
    }
  }

  lemma {:induction false} PathEndAt(s: string, i: nat)
    requires i < |s| && (s[i] == '?' || s[i] == '#') && forall k :: 0 <= k < i ==> s[k] != '?' && s[k] != '#'
    ensures PathEnd(s) == i
  {
    if i > 0 {
      PathEndAt(s[1..], i - 1);
    }
  }

  /** `s.replace(/pat/g, rep)` for a literal pattern: a left-to-right scan
      that replaces each match and resumes after it, so matches never
      overlap. A replacement at least as long as the pattern never shortens
      the text. */
  function ReplaceAll(s: string, pat: string, rep: string): (r: string)
    requires pat != []
    ensures |rep| >= |pat| ==> |r| >= |s|
    decreases |s|
  {
    if |s| == 0 then []
    else if StartsWith(s, pat) then rep + ReplaceAll(s[|pat|..], pat, rep)
    else [s[0]] + ReplaceAll(s[1..], pat, rep)
  }

  /** A text without the pattern is left unchanged. */
  lemma {:induction false} ReplaceAllNoMatch(s: string, pat: string, rep: string)
    requires pat != [] && !Contains(s, pat)
    ensures ReplaceAll(s, pat, rep) == s
    decreases |s|
  {
    if |s| > 0 {
      assert !OccursAt(s, pat, 0);
      IndexOfStep(s, pat);
      ReplaceAllNoMatch(s[1..], pat, rep);
      ReplaceAllUnfoldSkip(s, pat, rep);
      assert [s[0]] + s[1..] == s;
    }
  }

  /** With the leftmost match at `i`, the text before it is copied, the
      match becomes `rep`, and the scan resumes right after the match.
      Together with the no-match case this determines the whole result. */
  lemma {:induction false} ReplaceAllFirstMatch(s: string, pat: string, rep: string, i: nat)
    requires pat != [] && OccursAt(s, pat, i)
    requires forall j :: 0 <= j < i ==> !OccursAt(s, pat, j)
    ensures ReplaceAll(s, pat, rep) == s[..i] + rep + ReplaceAll(s[i + |pat|..], pat, rep)
    decreases i, 1
  {
    if i == 0 {
      ReplaceAllAtStart(s, pat, rep, i);
    } else {
      ReplaceAllFirstMatchLater(s, pat, rep, i);
    }
  }

  /** The inductive step of `ReplaceAllFirstMatch`: the first character is
      copied and the scan finds the same match in the tail. */
  lemma {:induction false} ReplaceAllFirstMatchLater(s: string, pat: string, rep: string, i: nat)
    requires pat != [] && 0 < i && OccursAt(s, pat, i)
    requires forall j :: 0 <= j < i ==> !OccursAt(s, pat, j)
    ensures ReplaceAll(s, pat, rep) == s[..i] + rep + ReplaceAll(s[i + |pat|..], pat, rep)
    decreases i, 0
  {
    assert ReplaceAll(s[1..], pat, rep) == s[1..][..i - 1] + rep + ReplaceAll(s[1..][i - 1 + |pat|..], pat, rep) by {
      FirstMatchInTail(s, pat, i);
      ReplaceAllFirstMatch(s[1..], pat, rep, i - 1);
    }
    assert !StartsWith(s, pat) by {
      assert !OccursAt(s, pat, 0);
    }
    ReplaceAllShift(s, pat, rep, i);
  }

  /** A match at the very start is replaced first. */
  lemma ReplaceAllAtStart(s: string, pat: string, rep: string, i: nat)
    requires pat != [] && i == 0 && StartsWith(s, pat)
    ensures ReplaceAll(s, pat, rep) == s[..i] + rep + ReplaceAll(s[i + |pat|..], pat, rep)
  {
    ReplaceAllUnfoldMatch(s, pat, rep);
    assert s[..i] + rep == rep;
  }

  /** One step of the scan at a match. */
  lemma ReplaceAllUnfoldMatch(s: string, pat: string, rep: string)
    requires pat != [] && StartsWith(s, pat)
    ensures ReplaceAll(s, pat, rep) == rep + ReplaceAll(s[|pat|..], pat, rep)
  {
  }

  /** One step of the scan past a character that starts no match. */
  lemma ReplaceAllUnfoldSkip(s: string, pat: string, rep: string)
    requires pat != [] && |s| > 0 && !StartsWith(s, pat)
    ensures ReplaceAll(s, pat, rep) == [s[0]] + ReplaceAll(s[1..], pat, rep)
  {
  }

  /** A leftmost match past the first position is the tail's leftmost
      match, one position earlier. */
  lemma FirstMatchInTail(s: string, pat: string, i: nat)
    requires 0 < i && OccursAt(s, pat, i)
    requires forall j :: 0 <= j < i ==> !OccursAt(s, pat, j)
    ensures |s| > 0 && !StartsWith(s, pat)
    ensures OccursAt(s[1..], pat, i - 1)
    ensures forall j :: 0 <= j < i - 1 ==> !OccursAt(s[1..], pat, j)
  {
    assert !OccursAt(s, pat, 0);
    OccursAtTail(s, pat, i - 1);
    forall j | 0 <= j < i - 1 ensures !OccursAt(s[1..], pat, j) {
      OccursAtTail(s, pat, j);
    }
  }

  /** A match found in the tail, once the first character is not a match,
      is the same match one position further on. */
  lemma ReplaceAllShift(s: string, pat: string, rep: string, i: nat)
    requires pat != [] && |s| > 0 && !StartsWith(s, pat) && 0 < i && i + |pat| <= |s|
    requires ReplaceAll(s[1..], pat, rep) == s[1..][..i - 1] + rep + ReplaceAll(s[1..][i - 1 + |pat|..], pat, rep)
    ensures ReplaceAll(s, pat, rep) == s[..i] + rep + ReplaceAll(s[i + |pat|..], pat, rep)
  {
    var t := s[1..];
    SliceAfterHead(s, i, i + |pat|);
    ReplaceAllUnfoldSkip(s, pat, rep);
    Regroup([s[0]], t[..i - 1], rep, ReplaceAll(t[i - 1 + |pat|..], pat, rep));
  }

  /** Slicing the tail is slicing the whole one position on. */
  lemma SliceAfterHead(s: string, i: nat, k: nat)
    requires 0 < i <= k <= |s|
    ensures [s[0]] + s[1..][..i - 1] == s[..i]
    ensures s[1..][k - 1..] == s[k..]
  {
  }

  lemma Regroup(a: string, b: string, c: string, d: string)
    ensures a + (b + c + d) == (a + b) + c + d
  {
  }

  /** The number of matches the scan replaces. */
  function MatchCount(s: string, pat: string): nat
    requires pat != []
    decreases |s|
  {
    if |s| == 0 then 0
    else if StartsWith(s, pat) then 1 + MatchCount(s[|pat|..], pat)
    else MatchCount(s[1..], pat)
  }

  lemma Distribute(m: nat, d: int)
    ensures (1 + m) * d == d + m * d
  {
  }

  /** Each replaced match changes the length by `|rep| - |pat|`. */
  lemma {:induction false} ReplaceAllLength(s: string, pat: string, rep: string)
    requires pat != []
    ensures |ReplaceAll(s, pat, rep)| == |s| + MatchCount(s, pat) * (|rep| - |pat|)
    decreases |s|
  {
    var d := |rep| - |pat|;
    if |s| == 0 {
    } else if StartsWith(s, pat) {
      var t := s[|pat|..];
      ReplaceAllLength(t, pat, rep);
      var m := MatchCount(t, pat);
      ReplaceAllUnfoldMatch(s, pat, rep);
      assert MatchCount(s, pat) == 1 + m;
      Distribute(m, d);
    } else {
      ReplaceAllLength(s[1..], pat, rep);
      ReplaceAllUnfoldSkip(s, pat, rep);
      assert MatchCount(s, pat) == MatchCount(s[1..], pat);
    }
  }

  /** The text before the first match is copied unchanged. */
  lemma {:induction false} ReplaceAllKeepsPrefix(s: string, pat: string, rep: string, i: nat)
    requires pat != [] && i <= |s|
    requires forall j :: 0 <= j < i ==> !OccursAt(s, pat, j)
    ensures |ReplaceAll(s, pat, rep)| >= i && ReplaceAll(s, pat, rep)[..i] == s[..i]
    decreases i
  {
    if i > 0 {
      assert !StartsWith(s, pat) by { assert !OccursAt(s, pat, 0); }
      forall j | 0 <= j < i - 1 ensures !OccursAt(s[1..], pat, j) {
        OccursAtTail(s, pat, j);
      }
      ReplaceAllKeepsPrefix(s[1..], pat, rep, i - 1);
      var rest := ReplaceAll(s[1..], pat, rep);
      ReplaceAllUnfoldSkip(s, pat, rep);
      assert s[..i] == [s[0]] + s[1..][..i - 1];
    }
  }

  /** `processContentImages`: every `/media/` found by the scan is
      prefixed with the media host; empty content stays empty. */
  function ProcessContentImages(content: string, env: Env): (r: string)
    ensures content == "" ==> r == ""
    ensures !Contains(content, "/media/") ==> r == content
    ensures |r| == |content| + MatchCount(content, "/media/") * |BaseUrl(env)|
  {
    if content == "" then ""
    else
      var r := ReplaceAll(content, "/media/", BaseUrl(env) + "/media/");
      ReplaceAllLength(content, "/media/", BaseUrl(env) + "/media/");
      assert !Contains(content, "/media/") ==> r == content by {
        if !Contains(content, "/media/") {
          ReplaceAllNoMatch(content, "/media/", BaseUrl(env) + "/media/");
        }
      }
      r
  }

  /** A text as long as the pattern but different from it holds no match. */
  lemma EqualLengthNoMatch(t: string, pat: string)
    requires |t| == |pat| && t != pat
    ensures !Contains(t, pat)
  {
    forall j ensures !OccursAt(t, pat, j) {
      if 0 <= j && j + |pat| <= |t| {
        assert t[j..j + |pat|] == t;
      }
    }
  }

  /** Matches do not overlap: in `/media/media/...` the second `/media/`
      shares its `/` with the first, so only the first is rewritten. */
  lemma OverlappingMatchesRewrittenOnce(base: string, x: string)
    requires !Contains("media/" + x, "/media/")
    ensures ReplaceAll("/media/media/" + x, "/media/", base + "/media/") == base + "/media/media/" + x
  {
    var pat := "/media/";
    var rest := "media/" + x;
    assert "/media/media/" + x == pat + rest;
    ReplaceAllSingleMatch(pat, rest, base + pat);
    assert (base + pat) + rest == base + "/media/media/" + x;
  }

  /** The smallest case: `/media/media/x`. */
  lemma OverlapExample(base: string)
    ensures ReplaceAll("/media/media/" + "x", "/media/", base + "/media/") == base + "/media/media/" + "x"
  {
    assert ("media/" + "x")[0] != "/media/"[0];
    EqualLengthNoMatch("media/" + "x", "/media/");
    OverlappingMatchesRewrittenOnce(base, "x");
  }

  /** A match followed by text without the pattern: only that match is
      rewritten. */
  lemma ReplaceAllSingleMatch(pat: string, rest: string, rep: string)
    requires pat != [] && !Contains(rest, pat)
    ensures ReplaceAll(pat + rest, pat, rep) == rep + rest
  {
    var s := pat + rest;
    assert s[..|pat|] == pat && s[|pat|..] == rest;
    ReplaceAllUnfoldMatch(s, pat, rep);
    ReplaceAllNoMatch(rest, pat, rep);
  }
}
