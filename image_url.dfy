/**
 * Image addresses on the client.
 *
 * The API client's base URL comes from the build environment, falling back to the local server.
 * Stored logo paths are relative to the server's origin, so `getImageUrl` leaves absolute URLs
 * alone and puts the base, with `/api` taken out, in front of a relative path.
 */
module ImageUrl {
  import opened Wrappers

  const DefaultApiBase: string := "http://localhost:5000/api"

  /** `import.meta.env.VITE_API_URL || 'http://localhost:5000/api'`: unset and empty both fall back. */
  function ApiBase(env: Option<string>): (b: string)
    ensures env.Some? && env.value != "" ==> b == env.value
    ensures env.None? || env.value == "" ==> b == DefaultApiBase
  {
    if env.Some? && env.value != "" then env.value else DefaultApiBase
  }

  predicate StartsWith(s: string, prefix: string)
  {
    |prefix| <= |s| && s[..|prefix|] == prefix
  }

  predicate EndsWith(s: string, suffix: string)
  {
    |suffix| <= |s| && s[|s| - |suffix|..] == suffix
  }

  /** `pat` occurs in `s` at position `i`. */
  predicate OccursAt(s: string, pat: string, i: nat)
  {
    i + |pat| <= |s| && s[i..i + |pat|] == pat
  }

  /** `s.indexOf(pat)`: the first position where `pat` occurs, if any. */
  function IndexOf(s: string, pat: string): (r: Option<nat>)
    ensures r.Some? ==> OccursAt(s, pat, r.value) && forall j :: 0 <= j < r.value ==> !OccursAt(s, pat, j)
    ensures r.None? ==> forall j :: 0 <= j ==> !OccursAt(s, pat, j)
    decreases |s|
  {
    if OccursAt(s, pat, 0) then Some(0)
    else if |s| == 0 then None
    else
      var rest := IndexOf(s[1..], pat);
      forall j | 0 <= j ensures OccursAt(s[1..], pat, j) <==> OccursAt(s, pat, j + 1) {
        if j + 1 + |pat| <= |s| {
          assert s[1..][j..j + |pat|] == s[j + 1..j + 1 + |pat|];
        }
      }
      match rest
      case None =>
        assert forall j :: 0 <= j ==> !OccursAt(s, pat, j) by {
          forall j | 0 <= j ensures !OccursAt(s, pat, j) {
            if j > 0 {
              assert !OccursAt(s[1..], pat, j - 1);
            }
          }
        }
        None
      case Some(k) =>
        assert forall j :: 0 <= j < k + 1 ==> !OccursAt(s, pat, j) by {
          forall j | 0 <= j < k + 1 ensures !OccursAt(s, pat, j) {
            if j > 0 {
              assert !OccursAt(s[1..], pat, j - 1);
            }
          }
        }
        Some(k + 1)
  }

  /** `s.replace(pat, rep)` with a string pattern: only the first occurrence is replaced. */
  function ReplaceFirst(s: string, pat: string, rep: string): (r: string)
    ensures IndexOf(s, pat).None? ==> r == s
    ensures IndexOf(s, pat).Some? ==>
      var i := IndexOf(s, pat).value;
      r == s[..i] + rep + s[i + |pat|..]
  {
    match IndexOf(s, pat)
    case None => s
    case Some(i) => s[..i] + rep + s[i + |pat|..]
  }

  /** `getImageUrl` as written: the first `/api` of the base is removed. */
  function GetImageUrl(url: Option<string>, env: Option<string>): (r: Option<string>)
    ensures url.None? || url.value == "" ==> r.None?
    ensures url.Some? && url.value != "" && StartsWith(url.value, "http") ==> r == url
    ensures url.Some? && url.value != "" && !StartsWith(url.value, "http") ==>
      r == Some(ReplaceFirst(ApiBase(env), "/api", "") + url.value)
    ensures r.Some? ==> EndsWith(r.value, url.value)
  {
    if url.None? || url.value == "" then None
    else if StartsWith(url.value, "http") then
      assert url.value[|url.value| - |url.value|..] == url.value;
      url
    else
      var s := ReplaceFirst(ApiBase(env), "/api", "") + url.value;
      assert s[|s| - |url.value|..] == url.value;
      Some(s)
  }

  /** A mismatch at offset `k` rules out an occurrence at `i`. */
  lemma MismatchAt(s: string, pat: string, i: nat, k: nat)
    requires k < |pat| && i + k < |s| && s[i + k] != pat[k]
    ensures !OccursAt(s, pat, i)
  {
    if i + |pat| <= |s| {
      assert s[i..i + |pat|][k] == s[i + k];
    }
  }

  /** The first occurrence is the one with none before it. */
  lemma IndexOfIs(s: string, pat: string, i: nat)
    requires OccursAt(s, pat, i)
    requires forall j :: 0 <= j < i ==> !OccursAt(s, pat, j)
    ensures IndexOf(s, pat) == Some(i)
  {
  }

  /** No `/api` starts inside a part of the text that has no slash. */
  lemma NoSlashNoApi(pre: string, t: string, post: string, j: nat)
    requires '/' !in t && |pre| <= j < |pre| + |t|
    ensures !OccursAt(pre + t + post, "/api", j)
  {
    var s := pre + t + post;
    assert s[j] == t[j - |pre|];
    MismatchAt(s, "/api", j, 0);
  }

  /** Replacing the first `/api`, when it is the one right after `pre`. */
  lemma ReplacedAfter(pre: string, post: string)
    requires forall j :: 0 <= j < |pre| ==> !OccursAt(pre + "/api" + post, "/api", j)
    ensures ReplaceFirst(pre + "/api" + post, "/api", "") == pre + post
  {
    var b := pre + "/api" + post;
    assert b[|pre|..|pre| + 4] == "/api";
    IndexOfIs(b, "/api", |pre|);
    assert b[..|pre|] == pre && b[|pre| + 4..] == post;
  }

  /** No `/api` starts inside the scheme `http:` of the default base. */
  lemma DefaultBaseSchemeNoApi(j: nat)
    requires j < 5
    ensures !OccursAt(DefaultApiBase, "/api", j)
  {
    assert DefaultApiBase == [] + "http:" + "//localhost:5000/api";
    NoSlashNoApi([], "http:", "//localhost:5000/api", j);
  }

  /** No `/api` starts at either slash of `//`: each is followed by something other than `a`. */
  lemma DefaultBaseSlashesNoApi(j: nat)
    requires 5 <= j < 7
    ensures !OccursAt(DefaultApiBase, "/api", j)
  {
    var b := DefaultApiBase;
    assert b[6] == '/' && b[7] == 'l';
    MismatchAt(b, "/api", j, 1);
  }

  /** No `/api` starts inside the host and port `localhost:5000`. */
  lemma DefaultBaseHostNoApi(j: nat)
    requires 7 <= j < 21
    ensures !OccursAt(DefaultApiBase, "/api", j)
  {
    assert DefaultApiBase == "http://" + "localhost:5000" + "/api";
    NoSlashNoApi("http://", "localhost:5000", "/api", j);
  }

  /** The default base has its only `/api` at the end. */
  lemma DefaultBaseApiAtEnd()
    ensures DefaultApiBase == "http://localhost:5000" + "/api" + ""
    ensures forall j :: 0 <= j < 21 ==> !OccursAt(DefaultApiBase, "/api", j)
  {
    forall j | 0 <= j < 21 ensures !OccursAt(DefaultApiBase, "/api", j) {
      if j < 5 {
        DefaultBaseSchemeNoApi(j);
      } else if j < 7 {
        DefaultBaseSlashesNoApi(j);
      } else {
        DefaultBaseHostNoApi(j);
      }
    }
  }

  /** With the default base, a relative path is served from the local server's origin. */
  lemma DefaultBaseImage(path: string)
    requires path != "" && !StartsWith(path, "http")
    ensures GetImageUrl(Some(path), None) == Some("http://localhost:5000" + path)
  {
    DefaultBaseApiAtEnd();
    ReplacedAfter("http://localhost:5000", "");
    assert "http://localhost:5000" + "" == "http://localhost:5000";
  }

  /** Before the `/api` of `scheme//api…`, no `/api` starts. */
  lemma HostApiIsFirst(scheme: string, rest: string)
    requires '/' !in scheme
    ensures forall j :: 0 <= j < |scheme + "/"| ==> !OccursAt(scheme + "/" + "/api" + (rest + "/api"), "/api", j)
  {
    var b := scheme + "/" + "/api" + (rest + "/api");
    var n := |scheme|;
    forall j | 0 <= j < n + 1 ensures !OccursAt(b, "/api", j) {
      if j < n {
        assert b == scheme + ("/" + "/api" + (rest + "/api"));
        NoSlashNoApi([], scheme, "/" + "/api" + (rest + "/api"), j);
      } else {
        assert b[n + 1] == '/';
        MismatchAt(b, "/api", n, 1);
      }
    }
  }

  /**
   * A base whose host begins with `api` loses the slash in front of the host instead of its
   * trailing `/api`: `https://api.example.com/api` serves images from `https:/.example.com/api`.
   */
  lemma FirstApiIsInTheHost(scheme: string, rest: string, path: string)
    requires '/' !in scheme
    requires path != "" && !StartsWith(path, "http")
    ensures GetImageUrl(Some(path), Some(scheme + "//api" + rest + "/api"))
         == Some(scheme + "/" + rest + "/api" + path)
  {
    assert scheme + "//api" + rest + "/api" == scheme + "/" + "/api" + (rest + "/api");
    HostApiIsFirst(scheme, rest);
    ReplacedAfter(scheme + "/", rest + "/api");
    assert scheme + "/" + (rest + "/api") == scheme + "/" + rest + "/api";
  }

  /** The server origin: a trailing `/api` of the base is dropped, nothing else. */
  function Origin(base: string): (o: string)
    ensures EndsWith(base, "/api") ==> o + "/api" == base
    ensures !EndsWith(base, "/api") ==> o == base
  {
    if EndsWith(base, "/api") then base[..|base| - 4] else base
  }

  /** `getImageUrl` with the base's trailing `/api` dropped: relative paths land on the origin. */
  function ImageUrlFromOrigin(url: Option<string>, env: Option<string>): (r: Option<string>)
    ensures url.None? || url.value == "" ==> r.None?
    ensures url.Some? && url.value != "" && StartsWith(url.value, "http") ==> r == url
    ensures r.Some? ==> EndsWith(r.value, url.value)
  {
    if url.None? || url.value == "" then None
    else if StartsWith(url.value, "http") then
      assert url.value[|url.value| - |url.value|..] == url.value;
      url
    else
      var s := Origin(ApiBase(env)) + url.value;
      assert s[|s| - |url.value|..] == url.value;
      Some(s)
  }

  /** For every origin, a base `origin + "/api"` puts relative paths right behind that origin. */
  lemma OriginServesPaths(origin: string, path: string)
    requires origin + "/api" != "" && path != "" && !StartsWith(path, "http")
    ensures ImageUrlFromOrigin(Some(path), Some(origin + "/api")) == Some(origin + path)
  {
    var b := origin + "/api";
    assert b[|b| - 4..] == "/api";
    assert b[..|b| - 4] == origin;
  }

  /** Where the base's only `/api` is its end, the source's `getImageUrl` agrees with the origin rule. */
  lemma AgreesWhenOnlyTrailing(url: Option<string>, env: Option<string>)
    requires EndsWith(ApiBase(env), "/api")
    requires IndexOf(ApiBase(env), "/api") == Some(|ApiBase(env)| - 4)
    ensures GetImageUrl(url, env) == ImageUrlFromOrigin(url, env)
  {
    var b := ApiBase(env);
    assert b[|b| - 4 + 4..] == [];
    assert ReplaceFirst(b, "/api", "") == b[..|b| - 4];
  }
}
