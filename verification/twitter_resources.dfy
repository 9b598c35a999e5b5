/** How the Twitter connection resolves a resource path: which API host
    serves it, which entity type it returns, which default parameters it
    gets and whether it needs a multipart POST. */
module TwitterResources {
  import opened Values
  import opened Paths

  const DefaultApiVersion := "1.1"
  const RestUrl := "https://api.twitter.com/{v}/"
  const UploadUrl := "https://upload.twitter.com/{v}/"
  const AuthUrl := "https://api.twitter.com/"
  const StreamUrl := "https://stream.twitter.com/{v}/"
  const UserstreamUrl := "https://userstream.twitter.com/{v}/"
  const SitestreamUrl := "https://sitestream.twitter.com/{v}/"

  /** API host per resource. `*` is the fallback entry. */
  const ResourceApi: map<string, string> := map[
    "*" := RestUrl,
    "oauth" := AuthUrl,
    "statuses/update_with_media" := UploadUrl,
    "statuses/filter" := StreamUrl,
    "statuses/sample" := StreamUrl,
    "statuses/firehose" := StreamUrl,
    "user" := UserstreamUrl,
    "site" := SitestreamUrl
  ]

  /** Resources that need a multipart POST. */
  const ResourcesMultipart: map<string, bool> := map[
    "account/update_profile_background_image" := true,
    "account/update_profile_image" := true,
    "statuses/update_with_media" := true
  ]

  const MaxIdOnly: seq<Field> := [Field("max_id", Null)]

  /** Default parameters per resource. */
  const DefaultParamsTable: map<string, seq<Field>> := map[
    "statuses/home_timeline" := MaxIdOnly,
    "statuses/mentions" := MaxIdOnly,
    "statuses/retweeted_by_me" := MaxIdOnly,
    "statuses/retweeted_to_me" := MaxIdOnly,
    "statuses/retweets_of_me" := MaxIdOnly,
    "statuses/user_timeline" := [Field("max_id", Null), Field("trim_user", Bool(true))],
    "statuses/retweeted_to_user" := MaxIdOnly,
    "statuses/retweeted_by_user" := MaxIdOnly,
    "follower/ids" := [Field("stringify_ids", Int(1))],
    "friends/ids" := [Field("stringify_ids", Int(1))]
  ]

  // ---------------------------------------------------------------------
  // The dirname walks
  // ---------------------------------------------------------------------

  /** The keys `getBaseUrl` tries for a non-empty key: the key itself, then
      each `dirname` of it, stopping before ".". */
  function BaseWalk(k: string): (ks: seq<string>)
    requires k != "" && k[0] != '/'
    ensures |ks| >= 1 && ks[0] == k
    ensures forall i :: 0 <= i < |ks| - 1 ==> ks[i + 1] == Dirname(ks[i])
    ensures forall i :: 0 < i < |ks| ==> ks[i] != "."
    ensures Dirname(ks[|ks| - 1]) == "."
    decreases |k|
  {
    DirnameRelative(k);
    var d := Dirname(k);
    if d == "." then [k] else [k] + BaseWalk(d)
  }

  /** The keys `detectType` tries: the key itself, then each `dirname` of
      it while that is truthy and not ".". Unlike `getBaseUrl`, the key is
      tried even when it is empty. */
  function TypeWalk(k: string): (ks: seq<string>)
    requires k == "" || k[0] != '/'
    ensures |ks| >= 1 && ks[0] == k
    ensures forall i :: 0 <= i < |ks| - 1 ==> ks[i + 1] == Dirname(ks[i])
    ensures forall i :: 0 < i < |ks| ==> TruthyStr(ks[i]) && ks[i] != "."
    ensures var d := Dirname(ks[|ks| - 1]); !TruthyStr(d) || d == "."
    decreases |k|
  {
    var d := Dirname(k);
    if !TruthyStr(d) || d == "." then [k]
    else
      DirnameRelative(k);
      [k] + TypeWalk(d)
  }

  /** Each key `getBaseUrl` tries is a proper ancestor of the one before:
      the walk goes from the most specific key to the most general. */
  lemma {:induction false} BaseWalkAncestors(k: string)
    requires k != "" && k[0] != '/'
    ensures forall i :: 0 < i < |BaseWalk(k)| ==> IsProperAncestor(BaseWalk(k)[i], BaseWalk(k)[i - 1])
    decreases |k|
  {
    DirnameRelative(k);
    if Dirname(k) != "." {
      BaseWalkAncestors(Dirname(k));
      BaseWalkStep(k);
      AncestorsCons(k, BaseWalk(Dirname(k)), BaseWalk(k));
    }
  }

  /** A key in front of its proper ancestor keeps the chain. */
  lemma AncestorsCons(k: string, rest: seq<string>, w: seq<string>)
    requires w == [k] + rest
    requires rest != [] && IsProperAncestor(rest[0], k)
    requires forall i :: 0 < i < |rest| ==> IsProperAncestor(rest[i], rest[i - 1])
    ensures forall i :: 0 < i < |w| ==> IsProperAncestor(w[i], w[i - 1])
  {
    forall i | 0 < i < |w| ensures IsProperAncestor(w[i], w[i - 1]) {
      if i > 1 {
        assert w[i] == rest[i - 1] && w[i - 1] == rest[i - 2];
      }
    }
  }

  /** Both walks visit the same keys, except that `detectType` stops early
      before an ancestor "0" (falsy in PHP), which `getBaseUrl` still tries. */
  lemma {:induction false} TypeWalkPrefixOfBaseWalk(k: string)
    requires k != "" && k[0] != '/'
    ensures TypeWalk(k) <= BaseWalk(k)
    ensures TypeWalk(k) != BaseWalk(k) ==> BaseWalk(k)[|TypeWalk(k)|] == "0"
    decreases |k|
  {
    DirnameRelative(k);
    var d := Dirname(k);
    if d == "." {
    } else if !TruthyStr(d) {
      BaseWalkStep(k);
    } else {
      BaseWalkStep(k);
      TypeWalkStep(k);
      TypeWalkPrefixOfBaseWalk(d);
      ConsPrefix(k, TypeWalk(d), BaseWalk(d));
    }
  }

  /** One step of the `getBaseUrl` walk. */
  lemma BaseWalkStep(k: string)
    requires k != "" && k[0] != '/' && Dirname(k) != "."
    ensures Dirname(k) != "" && Dirname(k)[0] != '/'
    ensures BaseWalk(k) == [k] + BaseWalk(Dirname(k))
  {
    DirnameRelative(k);
  }

  /** The last step of the `getBaseUrl` walk. */
  lemma BaseWalkLast(k: string)
    requires k != "" && k[0] != '/' && Dirname(k) == "."
    ensures BaseWalk(k) == [k]
  {
  }

  /** The last step of the `detectType` walk. */
  lemma TypeWalkLast(k: string)
    requires k == "" || k[0] != '/'
    requires !TruthyStr(Dirname(k)) || Dirname(k) == "."
    ensures TypeWalk(k) == [k]
  {
  }

  /** One step of the `detectType` walk. */
  lemma TypeWalkStep(k: string)
    requires k == "" || k[0] != '/'
    requires TruthyStr(Dirname(k)) && Dirname(k) != "."
    ensures Dirname(k)[0] != '/'
    ensures TypeWalk(k) == [k] + TypeWalk(Dirname(k))
  {
    DirnameRelative(k);
  }

  /** A common first key keeps the prefix order, and equality. */
  lemma ConsPrefix(x: string, a: seq<string>, b: seq<string>)
    requires a <= b
    ensures [x] + a <= [x] + b
  {
  }

  /** `keys[i]` is the first of the keys that the table holds. */
  predicate FirstIn<V>(keys: seq<string>, table: map<string, V>, i: int) {
    0 <= i < |keys| && keys[i] in table && forall j :: 0 <= j < i ==> keys[j] !in table
  }

  /** An unlisted key in front of a walk shifts its first listed key by one. */
  lemma FirstInCons<V>(k: string, rest: seq<string>, table: map<string, V>)
    requires k !in table
    ensures forall i :: FirstIn([k] + rest, table, i) ==> FirstIn(rest, table, i - 1) && ([k] + rest)[i] == rest[i - 1]
    ensures (forall i :: 0 <= i < |rest| ==> rest[i] !in table) ==> forall i :: 0 <= i < |[k] + rest| ==> ([k] + rest)[i] !in table
    ensures (forall i :: 0 <= i < |[k] + rest| ==> ([k] + rest)[i] !in table) ==> forall i :: 0 <= i < |rest| ==> rest[i] !in table
  {
    var w := [k] + rest;
    forall i | FirstIn(w, table, i) ensures FirstIn(rest, table, i - 1) && w[i] == rest[i - 1] {
      assert i > 0;
      forall j | 0 <= j < i - 1 ensures rest[j] !in table {
        assert rest[j] == w[j + 1];
      }
    }
    if forall i :: 0 <= i < |w| ==> w[i] !in table {
      forall i | 0 <= i < |rest| ensures rest[i] !in table {
        assert rest[i] == w[i + 1];
      }
    }
  }

  /** The entry for the most specific key of the `getBaseUrl` walk that the
      table holds: the key itself if listed, else the nearest listed ancestor
      before dirname reaches ".". */
  function FindUp<V>(k: string, table: map<string, V>): Option<V>
    requires k != "" && k[0] != '/'
    decreases |k|
  {
    if k in table then Some(table[k])
    else
      var d := Dirname(k);
      if d == "." then None
      else
        DirnameRelative(k);
        FindUp(d, table)
  }

  /** What the lookup finds is an entry of the table. */
  lemma {:induction false} FindUpListed<V>(k: string, table: map<string, V>)
    requires k != "" && k[0] != '/'
    ensures FindUp(k, table).Some? ==> FindUp(k, table).value in table.Values
    decreases |k|
  {
    if k in table {
      assert table[k] in table.Values;
    } else if Dirname(k) != "." {
      DirnameRelative(k);
      FindUpListed(Dirname(k), table);
    }
  }

  /** The step case of `FindUpFirstIn`, from the result for the parent. */
  lemma FindUpStep<V>(k: string, table: map<string, V>)
    requires k != "" && k[0] != '/' && k !in table && Dirname(k) != "."
    requires Dirname(k) != "" && Dirname(k)[0] != '/'
    requires BaseWalk(k) == [k] + BaseWalk(Dirname(k))
    requires FindUp(Dirname(k), table).None? <==>
      forall i :: 0 <= i < |BaseWalk(Dirname(k))| ==> BaseWalk(Dirname(k))[i] !in table
    requires forall i :: FirstIn(BaseWalk(Dirname(k)), table, i) ==>
      FindUp(Dirname(k), table) == Some(table[BaseWalk(Dirname(k))[i]])
    ensures FindUp(k, table).None? <==> forall i :: 0 <= i < |BaseWalk(k)| ==> BaseWalk(k)[i] !in table
    ensures forall i :: FirstIn(BaseWalk(k), table, i) ==> FindUp(k, table) == Some(table[BaseWalk(k)[i]])
  {
    assert FindUp(k, table) == FindUp(Dirname(k), table);
    FirstInCons(k, BaseWalk(Dirname(k)), table);
  }

  /** The lookup agrees with the walk: it finds nothing exactly when no key
      of the walk is listed, and otherwise the entry of the first listed one. */
  lemma {:induction false} FindUpFirstIn<V>(k: string, table: map<string, V>)
    requires k != "" && k[0] != '/'
    ensures FindUp(k, table).None? <==> forall i :: 0 <= i < |BaseWalk(k)| ==> BaseWalk(k)[i] !in table
    ensures forall i :: FirstIn(BaseWalk(k), table, i) ==> FindUp(k, table) == Some(table[BaseWalk(k)[i]])
    decreases |k|
  {
    if k in table {
      assert BaseWalk(k)[0] in table;
    } else if Dirname(k) == "." {
      BaseWalkLast(k);
    } else {
      BaseWalkStep(k);
      DirnameRelative(k);
      FindUpFirstIn(Dirname(k), table);
      FindUpStep(k, table);
    }
  }


  // ---------------------------------------------------------------------
  // getBaseUrl
  // ---------------------------------------------------------------------

  /** `str_replace($pat, $rep, $s)`: every occurrence, left to right, without overlap. */
  function ReplaceAll(s: string, pat: string, rep: string): string
    requires pat != []
    decreases |s|
  {
    if |s| < |pat| then s
    else if s[..|pat|] == pat then rep + ReplaceAll(s[|pat|..], pat, rep)
    else [s[0]] + ReplaceAll(s[1..], pat, rep)
  }

  /** Text that cannot start an occurrence is copied unchanged. */
  lemma {:induction false} ReplaceAllPrefix(a: string, b: string, pat: string, rep: string)
    requires pat != [] && pat[0] !in a
    ensures ReplaceAll(a + b, pat, rep) == a + ReplaceAll(b, pat, rep)
  {
    if a == [] {
      assert a + b == b;
    } else {
      var ab := a + b;
      assert ab[0] == a[0] && a[0] in a;
      assert ab[1..] == a[1..] + b;
      assert ReplaceAll(ab, pat, rep) == [a[0]] + ReplaceAll(ab[1..], pat, rep) by {
        if |ab| >= |pat| {
          assert ab[..|pat|][0] != pat[0];
        }
      }
      ReplaceAllPrefix(a[1..], b, pat, rep);
      Assoc([a[0]], a[1..], ReplaceAll(b, pat, rep));
      assert a == [a[0]] + a[1..];
    }
  }

  /** `://` occurs at position i. */
  predicate SchemeAt(url: string, i: nat) {
    i + 3 <= |url| && url[i] == ':' && url[i + 1] == '/' && url[i + 2] == '/'
  }

  /** `strpos($url, '://') !== false`. */
  predicate HasScheme(url: string) {
    exists i: nat :: i < |url| && SchemeAt(url, i)
  }

  /** `://` stays where it is when text is appended. */
  lemma SchemeAtAppend(a: string, b: string, i: nat)
    requires SchemeAt(a, i)
    ensures SchemeAt(a + b, i)
  {
  }

  /** The fallback host: the REST URL for the given API version. */
  function FallbackUrl(apiVersion: string): (u: string)
    ensures u == "https://api.twitter.com/" + apiVersion + "/"
    ensures SchemeAt(u, 5)
  {
    assert SchemeAt("https://api.twitter.com/", 5);
    SchemeAtAppend("https://api.twitter.com/", apiVersion + "/", 5);
    Assoc("https://api.twitter.com/", apiVersion, "/");
    assert RestUrl == "https://api.twitter.com/" + "{v}/";
    assert "{v}/"[..3] == "{v}" && "{v}/"[3..] == "/";
    ReplaceAllPrefix("https://api.twitter.com/", "{v}/", "{v}", apiVersion);
    ReplaceAll(RestUrl, "{v}", apiVersion)
  }

  /** The host `getBaseUrl` picks for a normalized key: the table entry of the
      most specific listed key on its walk, or the versioned REST URL. A
      table entry keeps its `{v}`; only the fallback substitutes it. */
  function ResolveBaseUrl(key: string, apiVersion: string): string
    requires key == "" || key[0] != '/'
  {
    if !TruthyStr(key) then FallbackUrl(apiVersion)
    else match FindUp(key, ResourceApi)
      case None => FallbackUrl(apiVersion)
      case Some(u) => u
  }

  /** The resolution in terms of the walk: the entry of the first listed key,
      and the fallback when the key is falsy or no key of the walk is listed. */
  lemma ResolveBaseUrlMostSpecific(key: string, apiVersion: string)
    requires key == "" || key[0] != '/'
    ensures !TruthyStr(key) ==> ResolveBaseUrl(key, apiVersion) == FallbackUrl(apiVersion)
    ensures TruthyStr(key) ==> forall i :: FirstIn(BaseWalk(key), ResourceApi, i) ==>
      ResolveBaseUrl(key, apiVersion) == ResourceApi[BaseWalk(key)[i]]
    ensures TruthyStr(key) && (forall i :: 0 <= i < |BaseWalk(key)| ==> BaseWalk(key)[i] !in ResourceApi) ==>
      ResolveBaseUrl(key, apiVersion) == FallbackUrl(apiVersion)
  {
    if TruthyStr(key) {
      FindUpFirstIn(key, ResourceApi);
    }
  }

  /** `getBaseUrl`: the do-while walk over `dirname`, with the API version
      passed in. */
  method BaseUrl(url: string, apiVersion: string) returns (base: string)
    requires url == "" || url[0] != '/'
    ensures base == ResolveBaseUrl(Normalize(url), apiVersion)
  {
    var resource := Normalize(url);
    NormalizeNoLeadingSlash(url);
    if TruthyStr(resource) {
      ghost var key := resource;
      while true
        invariant resource != "" && resource[0] != '/'
        invariant FindUp(resource, ResourceApi) == FindUp(key, ResourceApi)
        decreases |resource|
      {
        if resource in ResourceApi {
          return ResourceApi[resource];
        }
        DirnameRelative(resource);
        resource := Dirname(resource);
        if resource == "." {
          break;
        }
      }
    }
    return FallbackUrl(apiVersion);
  }

  /** A key of a length no table key has is not listed. */
  lemma Unlisted(k: string)
    requires |k| != 1 && |k| != 4 && |k| != 5 && |k| != 15 && |k| != 17 && |k| != 26
    ensures k !in ResourceApi
  {
  }

  /** A key that only an ancestor matches gets that ancestor's host, with
      its `{v}` left in place. */
  lemma BaseUrlOfSubResource(v: string)
    ensures ResolveBaseUrl("statuses/update_with_media/x", v) == UploadUrl
  {
    var k := "statuses/update_with_media/x";
    assert k == "statuses/update_with_media" + "/" + "x";
    DirnameChild("statuses/update_with_media", "x");
    Unlisted(k);
  }

  /** A listed key gets its own host. */
  lemma BaseUrlOfListed(v: string)
    ensures ResolveBaseUrl("statuses/filter", v) == StreamUrl
  {
  }

  /** Every `oauth/...` step is served by the authentication host. */
  lemma BaseUrlOfOAuth(v: string)
    ensures ResolveBaseUrl("oauth/request_token", v) == AuthUrl
  {
    var k := "oauth/request_token";
    assert k == "oauth" + "/" + "request_token";
    DirnameChild("oauth", "request_token");
    Unlisted(k);
  }

  /** A key with no listed ancestor gets the versioned REST URL. */
  lemma BaseUrlOfUnlisted(v: string)
    ensures ResolveBaseUrl("statuses/show", v) == "https://api.twitter.com/" + v + "/"
  {
    var k := "statuses/show";
    assert k == "statuses" + "/" + "show";
    DirnameChild("statuses", "show");
    Unlisted(k);
    Unlisted("statuses");
    DirnamePlain("statuses");
  }

  // ---------------------------------------------------------------------
  // The source's getBaseUrl as written
  // ---------------------------------------------------------------------

  /** `getBaseUrl` as written: the fallback reads `$this->apiVersion` inside
      a static method, which is a fatal error (None) in PHP. */
  function ResolveBaseUrlAsWritten(key: string): Option<string>
    requires key == "" || key[0] != '/'
  {
    if !TruthyStr(key) then None else FindUp(key, ResourceApi)
  }

  /** As written, exactly the keys that should get the fallback fail, for
      instance `statuses/show`; on the others both readings agree. */
  lemma ResolveBaseUrlAsWrittenFails(key: string, v: string)
    requires key == "" || key[0] != '/'
    ensures ResolveBaseUrlAsWritten(key).None? ==> ResolveBaseUrl(key, v) == FallbackUrl(v)
    ensures ResolveBaseUrlAsWritten(key).Some? ==> ResolveBaseUrl(key, v) == ResolveBaseUrlAsWritten(key).value
    ensures ResolveBaseUrlAsWritten("statuses/show").None?
  {
    var k := "statuses/show";
    assert k == "statuses" + "/" + "show";
    DirnameChild("statuses", "show");
    Unlisted(k);
    Unlisted("statuses");
    DirnamePlain("statuses");
  }

  /** How a run of `getBaseUrl` as written ends within a number of steps:
      it returns a host, it reaches the fatal `$this` of the fallback, or it
      is still walking. */
  datatype WalkEnd = Returned(url: string) | Fatal | Running

  /** `getBaseUrl` as written, run for at most `fuel` steps of its
      do-while: a falsy key goes straight to the fallback, and so does a
      walk that reaches "."; both are the fatal error. */
  function BaseLoopAsWritten(resource: string, fuel: nat): WalkEnd {
    if !TruthyStr(resource) then Fatal else BaseWalkAsWritten(resource, fuel)
  }

  /** The do-while of `getBaseUrl` as written, from a truthy key. */
  function BaseWalkAsWritten(resource: string, fuel: nat): WalkEnd
    decreases fuel
  {
    if resource in ResourceApi then Returned(ResourceApi[resource])
    else if fuel == 0 then Running
    else
      var d := Dirname(resource);
      if d == "." then Fatal else BaseWalkAsWritten(d, fuel - 1)
  }

  /** On a key without a leading `/`, the loop as written ends within as
      many steps as the key has characters, and as `ResolveBaseUrlAsWritten`
      says: with the host it finds, or with the fatal error when it finds
      none. */
  lemma BaseLoopAsWrittenEnds(key: string)
    requires key == "" || key[0] != '/'
    ensures ResolveBaseUrlAsWritten(key).None? ==> BaseLoopAsWritten(key, |key|) == Fatal
    ensures ResolveBaseUrlAsWritten(key).Some? ==> BaseLoopAsWritten(key, |key|) == Returned(ResolveBaseUrlAsWritten(key).value)
  {
    if TruthyStr(key) {
      BaseWalkAsWrittenFinds(key, |key|);
    }
  }

  /** The do-while as written, with enough fuel, is the lookup `FindUp`. */
  lemma {:induction false} BaseWalkAsWrittenFinds(k: string, fuel: nat)
    requires k != "" && k[0] != '/' && |k| <= fuel
    ensures FindUp(k, ResourceApi).None? ==> BaseWalkAsWritten(k, fuel) == Fatal
    ensures FindUp(k, ResourceApi).Some? ==> BaseWalkAsWritten(k, fuel) == Returned(FindUp(k, ResourceApi).value)
    decreases |k|
  {
    if k !in ResourceApi && Dirname(k) != "." {
      DirnameRelative(k);
      BaseWalkAsWrittenFinds(Dirname(k), fuel - 1);
    }
  }

  /** No table key starts with `/`. */
  lemma TableKeysRelative(k: string)
    requires k != "" && k[0] == '/'
    ensures k !in ResourceApi
  {
  }

  /** On a key with a leading `/` the walk never ends: `dirname` keeps the
      slash, never yields ".", and no table key starts with `/`. */
  lemma LeadingSlashNeverResolves(resource: string, fuel: nat)
    requires resource != "" && resource[0] == '/'
    ensures BaseLoopAsWritten(resource, fuel) == Running
  {
    assert TruthyStr(resource) by { assert resource != "0"; }
    LeadingSlashKeepsWalking(resource, fuel);
  }

  /** The do-while as written from a key with a leading `/`, step by step. */
  lemma {:induction false} LeadingSlashKeepsWalking(resource: string, fuel: nat)
    requires resource != "" && resource[0] == '/'
    ensures BaseWalkAsWritten(resource, fuel) == Running
    decreases fuel
  {
    TableKeysRelative(resource);
    if fuel > 0 {
      DirnameAbsolute(resource);
      LeadingSlashKeepsWalking(Dirname(resource), fuel - 1);
    }
  }

  // ---------------------------------------------------------------------
  // getFullUrl (joining only)
  // ---------------------------------------------------------------------

  /** Every host in the table is an `https://` URL. */
  lemma TableHostsHaveScheme()
    ensures forall u :: u in ResourceApi.Values ==> SchemeAt(u, 5)
  {
    assert SchemeAt(RestUrl, 5) && SchemeAt(AuthUrl, 5) && SchemeAt(UploadUrl, 5);
    assert SchemeAt(StreamUrl, 5) && SchemeAt(UserstreamUrl, 5) && SchemeAt(SitestreamUrl, 5);
  }

  /** Every host the resolution can give is an `https://` URL. */
  lemma HostsHaveScheme(key: string, v: string)
    requires key == "" || key[0] != '/'
    ensures SchemeAt(ResolveBaseUrl(key, v), 5)
  {
    if TruthyStr(key) {
      FindUpListed(key, ResourceApi);
      TableHostsHaveScheme();
    }
  }

  /** `getFullUrl` without query building, resolving on the path without
      its leading slashes. Strings with a scheme are kept. */
  function FullUrl(url: string, apiVersion: string): (r: string)
    ensures HasScheme(url) ==> r == url
    ensures HasScheme(r)
  {
    if HasScheme(url) then url
    else
      var path := TrimLeadingSlashes(url);
      NormalizeNoLeadingSlash(path);
      var base := ResolveBaseUrl(Normalize(path), apiVersion);
      HostsHaveScheme(Normalize(path), apiVersion);
      assert SchemeAt(base + path, 5);
      base + path
  }

  /** Joining is idempotent: a full URL is left alone. */
  lemma FullUrlIdempotent(url: string, v: string)
    ensures FullUrl(FullUrl(url, v), v) == FullUrl(url, v)
  {
  }

  /** Leading slashes do not change the result, and on a relative path it
      is the host of the path's key followed by the path. */
  lemma FullUrlOfPath(path: string, v: string)
    requires !HasScheme(path) && (path == "" || path[0] != '/')
    ensures FullUrl(path, v) == ResolveBaseUrl(Normalize(path), v) + path
    ensures !HasScheme("/" + path) && FullUrl("/" + path, v) == FullUrl(path, v)
  {
    TrimSlashCons(path);
    if HasScheme("/" + path) {
      var i: nat :| i < |"/" + path| && SchemeAt("/" + path, i);
      SchemeAtCons(path, i);
    }
  }

  /** One leading slash more is trimmed away. */
  lemma TrimSlashCons(path: string)
    ensures TrimLeadingSlashes("/" + path) == TrimLeadingSlashes(path)
  {
    assert ("/" + path)[1..] == path;
  }

  /** A `://` in `/path` lies within path. */
  lemma SchemeAtCons(path: string, i: nat)
    requires SchemeAt("/" + path, i)
    ensures i > 0 && i - 1 < |path| && SchemeAt(path, i - 1)
  {
  }

  // ---------------------------------------------------------------------
  // Exact lookups
  // ---------------------------------------------------------------------

  /** `getDefaultParams`: the parameters listed for exactly this key, none otherwise. */
  function DefaultParams(url: string): (r: seq<Field>)
    ensures Normalize(url) in DefaultParamsTable ==> r == DefaultParamsTable[Normalize(url)]
    ensures r != [] <==> Normalize(url) in DefaultParamsTable
  {
    var key := Normalize(url);
    if key in DefaultParamsTable then DefaultParamsTable[key] else []
  }

  /** `detectMultipart`: true exactly for the listed keys (all listed as true). */
  function Multipart(url: string): (r: bool)
    ensures r <==> Normalize(url) in ResourcesMultipart
  {
    var key := Normalize(url);
    key in ResourcesMultipart && ResourcesMultipart[key]
  }

  /** A listed key gets its own default parameters. */
  lemma DefaultParamsOfListed(dir: string, name: string, url: string)
    requires dir == "statuses" && name == "user_timeline" && url == dir + "/" + name
    ensures DefaultParams(url) == [Field("max_id", Null), Field("trim_user", Bool(true))]
  {
    StatusesKey(dir, name, url);
    UserTimelineSpelling(dir, name, url);
    DefaultParamsOfUserTimeline(url);
  }

  /** `statuses/<name>` is its own key. */
  lemma StatusesKey(dir: string, name: string, url: string)
    requires dir == "statuses" && LowerName(name) && url == dir + "/" + name
    ensures Normalize(url) == url && ReplaceIds(url) == url
    ensures '\n' !in url && '.' !in url && '?' !in url
  {
    PlainKeyKept(dir, name, url);
  }

  /** The key `statuses/user_timeline`, spelled in two parts. */
  lemma UserTimelineSpelling(dir: string, name: string, url: string)
    requires dir == "statuses" && name == "user_timeline" && url == dir + "/" + name
    ensures url == "statuses/user_timeline"
  {
  }

  /** The table entry of `statuses/user_timeline`. */
  lemma DefaultParamsOfUserTimeline(url: string)
    requires Normalize(url) == url && url == "statuses/user_timeline"
    ensures DefaultParams(url) == [Field("max_id", Null), Field("trim_user", Bool(true))]
  {
    UserTimelineEntry(url);
  }

  /** The table holds `statuses/user_timeline` with its two parameters. */
  lemma UserTimelineEntry(k: string)
    requires k == "statuses/user_timeline"
    ensures k in DefaultParamsTable && DefaultParamsTable[k] == [Field("max_id", Null), Field("trim_user", Bool(true))]
  {
  }

  /** Lookups are exact: a listed key's sub-path gets no default parameters. */
  lemma DefaultParamsOfSubPath(dir: string, name: string, key: string, url: string)
    requires dir == "statuses" && name == "user_timeline" && key == dir + "/" + name
    requires url == key + "/extra"
    ensures DefaultParams(url) == []
  {
    StatusesKey(dir, name, key);
    SubPathKept(key, "extra", url);
    NoDefaultParams(url);
  }

  /** A key longer than every key of the default-parameter table is not listed. */
  lemma NoDefaultParams(k: string)
    requires |k| > 26
    ensures k !in DefaultParamsTable
  {
  }

  /** A listed key needs a multipart POST. */
  lemma MultipartOfListed(dir: string, name: string, url: string)
    requires dir == "statuses" && name == "update_with_media" && url == dir + "/" + name
    ensures Multipart(url)
  {
    StatusesKey(dir, name, url);
    UpdateWithMediaSpelling(dir, name, url);
    MultipartOfUpdateWithMedia(url);
  }

  /** The key `statuses/update_with_media`, spelled in two parts. */
  lemma UpdateWithMediaSpelling(dir: string, name: string, url: string)
    requires dir == "statuses" && name == "update_with_media" && url == dir + "/" + name
    ensures url == "statuses/update_with_media"
  {
  }

  /** The table entry of `statuses/update_with_media`. */
  lemma MultipartOfUpdateWithMedia(url: string)
    requires Normalize(url) == url && url == "statuses/update_with_media"
    ensures Multipart(url)
  {
  }

  /** Lookups are exact: a listed key's sub-path is not multipart. */
  lemma MultipartOfSubPath(dir: string, name: string, key: string, url: string)
    requires dir == "statuses" && name == "update_with_media" && key == dir + "/" + name
    requires url == key + "/extra"
    ensures !Multipart(url)
  {
    StatusesKey(dir, name, key);
    SubPathKept(key, "extra", url);
    NotMultipart(url);
  }

  /** A key of a length no multipart key has is not listed. */
  lemma NotMultipart(k: string)
    requires |k| != 26 && |k| != 28 && |k| != 39
    ensures k !in ResourcesMultipart
  {
  }

  /** Lower-case letters and underscores. */
  predicate LowerName(s: string) {
    s != "" && forall i :: 0 <= i < |s| ==> 'a' <= s[i] <= 'z' || s[i] == '_'
  }

  /** A lower-case name is a plain name and not an id. */
  lemma LowerNamePlain(s: string)
    requires LowerName(s)
    ensures IsPlainName(s) && !IsIdSegment(s)
  {
    assert !IsDigit(s[0]);
  }

  /** `key/sub` is its own key when key is and sub is a lower-case name. */
  lemma SubPathKept(key: string, sub: string, url: string)
    requires '\n' !in key && '.' !in key && '?' !in key && ReplaceIds(key) == key
    requires LowerName(sub) && url == key + "/" + sub
    ensures Normalize(url) == url
  {
    LowerNamePlain(sub);
    PlainPathKept(key, sub);
  }

  /** `dir/name` of two lower-case names is its own key, and has no newline,
      dot or question mark. */
  lemma PlainKeyKept(dir: string, name: string, key: string)
    requires LowerName(dir) && LowerName(name) && key == dir + "/" + name
    ensures Normalize(key) == key && ReplaceIds(key) == key
    ensures '\n' !in key && '.' !in key && '?' !in key
  {
    LowerNamePlain(dir);
    ReplaceIdsNoSlash(dir);
    LowerNamePlain(name);
    PlainPathKept(dir, name);
    forall i | 0 <= i < |key| ensures key[i] != '\n' && key[i] != '.' && key[i] != '?' {
      if i < |dir| {
        assert key[i] == dir[i];
      } else if i > |dir| {
        assert key[i] == name[i - |dir| - 1];
      }
    }
  }

  // ---------------------------------------------------------------------
  // detectType
  // ---------------------------------------------------------------------

  /** The entry for the first key of the `detectType` walk that the table
      holds. */
  function TypeUp<V>(k: string, table: map<string, V>): Option<V>
    requires k == "" || k[0] != '/'
    decreases |k|
  {
    if k in table then Some(table[k])
    else
      var d := Dirname(k);
      if !TruthyStr(d) || d == "." then None
      else
        DirnameRelative(k);
        TypeUp(d, table)
  }

  /** The step case of `TypeUpFirstIn`, from the result for the parent. */
  lemma TypeUpStep<V>(k: string, table: map<string, V>)
    requires k == "" || k[0] != '/'
    requires k !in table && TruthyStr(Dirname(k)) && Dirname(k) != "."
    requires Dirname(k)[0] != '/'
    requires TypeWalk(k) == [k] + TypeWalk(Dirname(k))
    requires TypeUp(Dirname(k), table).None? <==>
      forall i :: 0 <= i < |TypeWalk(Dirname(k))| ==> TypeWalk(Dirname(k))[i] !in table
    requires forall i :: FirstIn(TypeWalk(Dirname(k)), table, i) ==>
      TypeUp(Dirname(k), table) == Some(table[TypeWalk(Dirname(k))[i]])
    ensures TypeUp(k, table).None? <==> forall i :: 0 <= i < |TypeWalk(k)| ==> TypeWalk(k)[i] !in table
    ensures forall i :: FirstIn(TypeWalk(k), table, i) ==> TypeUp(k, table) == Some(table[TypeWalk(k)[i]])
  {
    assert TypeUp(k, table) == TypeUp(Dirname(k), table);
    FirstInCons(k, TypeWalk(Dirname(k)), table);
  }

  /** The lookup agrees with the walk: nothing exactly when no key of the
      walk is listed, otherwise the entry of the first listed one. */
  lemma {:induction false} TypeUpFirstIn<V>(k: string, table: map<string, V>)
    requires k == "" || k[0] != '/'
    ensures TypeUp(k, table).None? <==> forall i :: 0 <= i < |TypeWalk(k)| ==> TypeWalk(k)[i] !in table
    ensures forall i :: FirstIn(TypeWalk(k), table, i) ==> TypeUp(k, table) == Some(table[TypeWalk(k)[i]])
    decreases |k|
  {
    if k in table {
      assert TypeWalk(k)[0] in table;
    } else if !TruthyStr(Dirname(k)) || Dirname(k) == "." {
      TypeWalkLast(k);
    } else {
      TypeWalkStep(k);
      DirnameRelative(k);
      TypeUpFirstIn(Dirname(k), table);
      TypeUpStep(k, table);
    }
  }


  /** How `detectType` ends: with a result (the type, or None for `null`),
      or not at all. */
  datatype TypeEnd<V> = Ends(value: Option<V>) | Endless

  /** The lookup from a key with a leading `/`: dirname keeps the slash and
      never gives "." or a falsy path, so the walk ends only at a listed
      key. At "/" it repeats forever, since "/" is its own dirname. */
  function TypeUpAbsolute<V>(k: string, table: map<string, V>): (r: TypeEnd<V>)
    requires k != "" && k[0] == '/'
    decreases |k|
  {
    if k in table then Ends(Some(table[k]))
    else
      var d := Dirname(k);
      if d == k then Endless
      else
        DirnameAbsoluteAncestor(k);
        TypeUpAbsolute(d, table)
  }

  /** How `detectType`'s loop ends from a normalized key. */
  function TypeLoop<V>(k: string, table: map<string, V>): TypeEnd<V> {
    if k == "" || k[0] != '/' then Ends(TypeUp(k, table)) else TypeUpAbsolute(k, table)
  }

  /** From a key with a leading `/`, the loop ends exactly when the table
      lists the key or one of its ancestors, and it always ends when "/" is
      listed. */
  lemma {:induction false} TypeUpAbsoluteEnds<V>(k: string, table: map<string, V>)
    requires k != "" && k[0] == '/'
    ensures TypeUpAbsolute(k, table).Endless? ==> k !in table && "/" !in table
    ensures "/" in table ==> TypeUpAbsolute(k, table).Ends? && TypeUpAbsolute(k, table).value.Some?
    ensures TypeUpAbsolute(k, table).Ends? ==> TypeUpAbsolute(k, table).value.Some?
    decreases |k|
  {
    if k !in table {
      var d := Dirname(k);
      DirnameAbsoluteAncestor(k);
      if d != k {
        DirnameAbsolute(k);
        TypeUpAbsoluteEnds(d, table);
      }
    }
  }

  /** `detectType`, with the type table (not declared in this class)
      passed in: the type of the most specific listed key, None (`null`)
      when the walk runs out, or `Endless` when it repeats "/" forever. */
  method DetectType<T>(url: string, resourceTypes: map<string, T>) returns (r: TypeEnd<T>)
    ensures r == TypeLoop(Normalize(url), resourceTypes)
    ensures url == "" || url[0] != '/' ==> r == Ends(TypeUp(Normalize(url), resourceTypes))
  {
    var resource := Normalize(url);
    if url == "" || url[0] != '/' {
      NormalizeNoLeadingSlash(url);
    }
    ghost var key := resource;
    while true
      invariant TypeLoop(resource, resourceTypes) == TypeLoop(key, resourceTypes)
      decreases |resource|
    {
      if resource in resourceTypes {
        return Ends(Some(resourceTypes[resource]));
      }
      var d := Dirname(resource);
      if !(TruthyStr(d) && d != ".") {
        break;
      }
      if d == resource {
        TypeLoopEndless(resource, resourceTypes);
        return Endless;
      }
      TypeLoopStep(resource, resourceTypes);
      resource := d;
    }
    TypeLoopLast(resource, resourceTypes);
    return Ends(None);
  }

  /** One turn of the loop: an unlisted key whose dirname is truthy, not "."
      and not itself ends like its dirname, which is shorter. */
  lemma TypeLoopStep<V>(k: string, table: map<string, V>)
    requires k !in table && TruthyStr(Dirname(k)) && Dirname(k) != "." && Dirname(k) != k
    ensures |Dirname(k)| < |k|
    ensures TypeLoop(k, table) == TypeLoop(Dirname(k), table)
  {
    if k == "" || k[0] != '/' {
      DirnameRelative(k);
    } else {
      DirnameAbsolute(k);
      DirnameAbsoluteAncestor(k);
    }
  }

  /** An unlisted key that is its own dirname is "/", and the loop repeats
      it forever. */
  lemma TypeLoopEndless<V>(k: string, table: map<string, V>)
    requires k !in table && TruthyStr(Dirname(k)) && Dirname(k) != "." && Dirname(k) == k
    ensures TypeLoop(k, table) == Endless
  {
    if k[0] != '/' {
      DirnameRelative(k);
      assert false;
    }
  }

  /** The loop's exit: an unlisted key whose dirname is falsy or "." ends
      with `null`. */
  lemma TypeLoopLast<V>(k: string, table: map<string, V>)
    requires k !in table && !(TruthyStr(Dirname(k)) && Dirname(k) != ".")
    ensures TypeLoop(k, table) == Ends(None)
  {
    if k != "" && k[0] == '/' {
      DirnameAbsolute(k);
    }
  }

}
