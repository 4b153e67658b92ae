/**
 * The client's configuration and the requests it builds: the REST1 form post with the
 * forced `token` field, the V3 GET with its escaped query string and the V3 JSON post.
 * The HTTP exchange itself is a parameter (`Transport`) answering a request with a
 * reply, or with None when the call throws.
 */
module Transport {
  import opened Wrappers
  import opened Text
  import opened Json
  import opened UriEscape

  // ---------------------------------------------------------------------------
  // Configuration

  /** The three configuration values the client reads; None is a missing key. */
  datatype Settings = Settings(token: Option<string>, baseUrl: Option<string>, debug: Option<string>)

  /** The client's fixed state after construction. */
  datatype Config = Config(token: string, baseUrl: string, debug: bool)

  const DefaultBaseUrl: string := "https://wawtesettur.tsoft.biz/rest1"

  predicate IsSlash(c: char) {
    c == '/'
  }

  /**
   * The constructor: a missing token throws, a missing base URL falls back to the
   * default, trailing slashes are trimmed, and debug is on only for exactly "true".
   */
  function Configure(s: Settings): (r: Result<Config, string>)
    ensures r.Err? <==> s.token.None?
    ensures r.Err? ==> r.error == "T-Soft API Token is not configured"
    ensures r.Ok? ==> r.value.token == s.token.value
    ensures r.Ok? ==> (r.value.debug <==> s.debug == Some("true"))
    ensures r.Ok? ==> r.value.baseUrl == [] || !IsSlash(r.value.baseUrl[|r.value.baseUrl| - 1])
    ensures r.Ok? ==> exists k: nat :: r.value.baseUrl + Repeat('/', k) == s.baseUrl.GetOr(DefaultBaseUrl)
  {
    match s.token
    case None => Err("T-Soft API Token is not configured")
    case Some(token) =>
      var url := s.baseUrl.GetOr(DefaultBaseUrl);
      var trimmed := TrimEndWhere(url, IsSlash);
      TrimmedSlashes(url, trimmed);
      assert trimmed + Repeat('/', |url| - |trimmed|) == url;
      Ok(Config(token, trimmed, s.debug == Some("true")))
  }

  function Repeat(c: char, k: nat): (r: string)
    ensures |r| == k && forall i | 0 <= i < k :: r[i] == c
  {
    if k == 0 then [] else Repeat(c, k - 1) + [c]
  }

  /** Trimming removes slashes only. */
  lemma {:induction false} TrimmedSlashes(url: string, trimmed: string)
    requires trimmed == TrimEndWhere(url, IsSlash)
    ensures trimmed + Repeat('/', |url| - |trimmed|) == url
  {
    if |url| > 0 && IsSlash(url[|url| - 1]) {
      var front := url[..|url| - 1];
      TrimmedSlashes(front, trimmed);
      var k := |front| - |trimmed|;
      assert Repeat('/', k + 1) == Repeat('/', k) + ['/'];
      assert trimmed + Repeat('/', k + 1) == (trimmed + Repeat('/', k)) + ['/'];
      assert front + [url[|url| - 1]] == url;
    } else {
      assert trimmed + [] == url;
    }
  }

  /** Without a configured base URL the client talks to the default REST1 root. */
  lemma DefaultBaseUrlUsed(token: string, debug: Option<string>)
    ensures Configure(Settings(Some(token), None, debug)).Ok?
    ensures Configure(Settings(Some(token), None, debug)).value.baseUrl == DefaultBaseUrl
  {
    assert DefaultBaseUrl[|DefaultBaseUrl| - 1] == '1';
  }

  // ---------------------------------------------------------------------------
  // Dictionaries

  /**
   * `Dictionary<string, string>` with no removals: its entries in insertion order.
   * Assigning through the indexer replaces an existing key's value in place and
   * appends a new key at the end.
   */
  type Dict = seq<(string, string)>

  predicate UniqueKeys(d: Dict) {
    forall i, j | 0 <= i < j < |d| :: d[i].0 != d[j].0
  }

  predicate HasKey(d: Dict, k: string) {
    exists i | 0 <= i < |d| :: d[i].0 == k
  }

  /** `TryGetValue`. */
  function Get(d: Dict, k: string): (r: Option<string>)
    ensures r.None? <==> !HasKey(d, k)
    ensures r.Some? ==> exists i | 0 <= i < |d| :: d[i] == (k, r.value)
  {
    if d == [] then None
    else if d[0].0 == k then Some(d[0].1)
    else Get(d[1..], k)
  }

  /** With distinct keys a lookup finds the one entry holding the key. */
  lemma GetUnique(d: Dict, i: int)
    requires UniqueKeys(d) && 0 <= i < |d|
    ensures Get(d, d[i].0) == Some(d[i].1)
  {
  }

  /** A lookup finds the first entry holding the key. */
  lemma {:induction false} GetFirstAt(d: Dict, i: nat)
    requires i < |d| && forall j | 0 <= j < i :: d[j].0 != d[i].0
    ensures Get(d, d[i].0) == Some(d[i].1)
  {
    if i > 0 {
      GetFirstAt(d[1..], i - 1);
    }
  }

  /** `d[k] = v`. */
  function Put(d: Dict, k: string, v: string): (r: Dict)
    ensures HasKey(d, k) ==> |r| == |d| && forall i | 0 <= i < |d| :: r[i].0 == d[i].0
    ensures !HasKey(d, k) ==> r == d + [(k, v)]
    ensures forall i | 0 <= i < |d| :: r[i].0 == k || r[i] == d[i]
    ensures forall i | 0 <= i < |r| :: r[i].0 == k ==> r[i].1 == v
    ensures HasKey(r, k)
  {
    if HasKey(d, k) then
      var r := seq(|d|, i requires 0 <= i < |d| => if d[i].0 == k then (k, v) else d[i]);
      assert forall i | 0 <= i < |d| :: d[i].0 == k ==> r[i].0 == k;
      r
    else
      var r := d + [(k, v)];
      assert r[|d|].0 == k;
      r
  }

  /** Lookups after an assignment: the assigned key gives the new value, every other key its old one. */
  lemma GetAfterPut(d: Dict, k: string, v: string, q: string)
    requires UniqueKeys(d)
    ensures Get(Put(d, k, v), q) == if q == k then Some(v) else Get(d, q)
  {
    var r := Put(d, k, v);
    PutKeepsUniqueKeys(d, k, v);
    if q == k {
      var i :| 0 <= i < |r| && r[i].0 == k;
      GetUnique(r, i);
    } else if HasKey(d, q) {
      var i :| 0 <= i < |d| && d[i].0 == q;
      assert r[i] == d[i];
      GetUnique(r, i);
      GetUnique(d, i);
    } else {
      forall i | 0 <= i < |r| ensures r[i].0 != q {
        if i < |d| {
          assert r[i].0 == k || r[i] == d[i];
        }
      }
    }
  }

  /** Assignment keeps the keys distinct. */
  lemma PutKeepsUniqueKeys(d: Dict, k: string, v: string)
    requires UniqueKeys(d)
    ensures UniqueKeys(Put(d, k, v))
  {
    var r := Put(d, k, v);
    if HasKey(d, k) {
      forall i, j | 0 <= i < j < |r| ensures r[i].0 != r[j].0 {
        assert r[i].0 == d[i].0 && r[j].0 == d[j].0;
      }
    } else {
      forall i, j | 0 <= i < j < |r| ensures r[i].0 != r[j].0 {
        if j == |d| {
          assert r[i] == d[i] && r[j].0 == k;
        } else {
          assert r[i] == d[i] && r[j] == d[j];
        }
      }
    }
  }

  /** The value of the last assignment to `q` in a run of assignments. */
  function LastAssigned(entries: Dict, q: string): Option<string> {
    if entries == [] then None
    else if entries[|entries| - 1].0 == q then Some(entries[|entries| - 1].1)
    else LastAssigned(entries[..|entries| - 1], q)
  }

  /** In a run of assignments to distinct keys, each key's last assignment is its only one. */
  lemma {:induction false} LastAssignedOfUnique(entries: Dict, i: nat)
    requires UniqueKeys(entries) && i < |entries|
    ensures LastAssigned(entries, entries[i].0) == Some(entries[i].1)
  {
    var n := |entries| - 1;
    if i < n {
      assert entries[n].0 != entries[i].0;
      assert UniqueKeys(entries[..n]) by {
        forall a, b | 0 <= a < b < n ensures entries[..n][a].0 != entries[..n][b].0 {
          assert entries[..n][a] == entries[a] && entries[..n][b] == entries[b];
        }
      }
      LastAssignedOfUnique(entries[..n], i);
      assert entries[..n][i] == entries[i];
    }
  }

  /** A key no entry assigns has no last assignment. */
  lemma {:induction false} LastAssignedOfAbsent(entries: Dict, q: string)
    requires !HasKey(entries, q)
    ensures LastAssigned(entries, q).None?
  {
    if entries != [] {
      var n := |entries| - 1;
      assert !HasKey(entries[..n], q) by {
        forall a | 0 <= a < n ensures entries[..n][a].0 != q {
          assert entries[..n][a] == entries[a];
        }
      }
      LastAssignedOfAbsent(entries[..n], q);
    }
  }

  /** `foreach (var kv in entries) d[kv.Key] = kv.Value`, and collection initialisers. */
  function PutAll(d: Dict, entries: Dict): Dict {
    if entries == [] then d
    else
      var last := entries[|entries| - 1];
      Put(PutAll(d, entries[..|entries| - 1]), last.0, last.1)
  }

  /** After a run of assignments a key holds the value of its last assignment, else its old value. */
  lemma {:induction false} GetAfterPutAll(d: Dict, entries: Dict, q: string)
    requires UniqueKeys(d)
    ensures Get(PutAll(d, entries), q) ==
      match LastAssigned(entries, q) case Some(v) => Some(v) case None => Get(d, q)
  {
    if entries != [] {
      var last := entries[|entries| - 1];
      GetAfterPutAll(d, entries[..|entries| - 1], q);
      PutAllKeepsUniqueKeys(d, entries[..|entries| - 1]);
      GetAfterPut(PutAll(d, entries[..|entries| - 1]), last.0, last.1, q);
    }
  }

  /** Each of several distinct entries assigned over a dictionary is read back. */
  lemma GetPutAllAt(d: Dict, entries: Dict, i: nat)
    requires UniqueKeys(d) && UniqueKeys(entries) && i < |entries|
    ensures Get(PutAll(d, entries), entries[i].0) == Some(entries[i].1)
  {
    LastAssignedOfUnique(entries, i);
    GetAfterPutAll(d, entries, entries[i].0);
  }

  /** Assigning distinct keys: each gets its value, and every key not assigned keeps its old one. */
  lemma PutAllOfDistinct(d: Dict, entries: Dict)
    requires UniqueKeys(d) && UniqueKeys(entries)
    ensures UniqueKeys(PutAll(d, entries))
    ensures forall i | 0 <= i < |entries| :: Get(PutAll(d, entries), entries[i].0) == Some(entries[i].1)
    ensures forall k | !HasKey(entries, k) :: Get(PutAll(d, entries), k) == Get(d, k)
  {
    PutAllKeepsUniqueKeys(d, entries);
    forall i | 0 <= i < |entries| ensures Get(PutAll(d, entries), entries[i].0) == Some(entries[i].1) {
      GetPutAllAt(d, entries, i);
    }
    forall k | !HasKey(entries, k) ensures Get(PutAll(d, entries), k) == Get(d, k) {
      LastAssignedOfAbsent(entries, k);
      GetAfterPutAll(d, entries, k);
    }
  }

  /** A run of assignments keeps the keys distinct. */
  lemma {:induction false} PutAllKeepsUniqueKeys(d: Dict, entries: Dict)
    requires UniqueKeys(d)
    ensures UniqueKeys(PutAll(d, entries))
  {
    if entries != [] {
      var last := entries[|entries| - 1];
      PutAllKeepsUniqueKeys(d, entries[..|entries| - 1]);
      PutKeepsUniqueKeys(PutAll(d, entries[..|entries| - 1]), last.0, last.1);
    }
  }

  // ---------------------------------------------------------------------------
  // URLs and forms

  /** The base URL joined with a path, adding a slash only when the path has none. */
  function JoinUrl(base: string, path: string): (r: string)
    ensures r == base + "/" + (if StartsWith(path, "/") then path[1..] else path)
  {
    var slash: string := if StartsWith(path, "/") then "" else "/";
    assert StartsWith(path, "/") ==> path == "/" + path[1..];
    base + slash + path
  }

  /** Against a configured base URL a path with at most one leading slash never produces `//` at the join. */
  lemma NoDoubleSlashAtJoin(cfg: Config, path: string)
    requires cfg.baseUrl == [] || !IsSlash(cfg.baseUrl[|cfg.baseUrl| - 1])
    requires !StartsWith(path, "//")
    ensures var r := JoinUrl(cfg.baseUrl, path);
      r[|cfg.baseUrl|] == '/' && (|r| > |cfg.baseUrl| + 1 ==> r[|cfg.baseUrl| + 1] != '/')
      && (|cfg.baseUrl| > 0 ==> r[|cfg.baseUrl| - 1] != '/')
  {
    if StartsWith(path, "/") && |path| > 1 {
      assert path[1] != '/' by { assert !(path[..2] == "//"); }
    }
  }

  /** The form a REST1 post sends: the caller's fields with `token` set to the configured token. */
  function Rest1Form(cfg: Config, form: Dict): (r: Dict)
    ensures HasKey(form, "token") ==> |r| == |form|
    ensures !HasKey(form, "token") ==> r == form + [("token", cfg.token)]
  {
    Put(form, "token", cfg.token)
  }

  /** The posted form carries the configured token and every other field of the caller unchanged. */
  lemma Rest1FormCarriesToken(cfg: Config, form: Dict)
    requires UniqueKeys(form)
    ensures UniqueKeys(Rest1Form(cfg, form))
    ensures Get(Rest1Form(cfg, form), "token") == Some(cfg.token)
    ensures forall k | k != "token" :: Get(Rest1Form(cfg, form), k) == Get(form, k)
  {
    PutKeepsUniqueKeys(form, "token", cfg.token);
    GetAfterPut(form, "token", cfg.token, "token");
    forall k | k != "token" ensures Get(Rest1Form(cfg, form), k) == Get(form, k) {
      GetAfterPut(form, "token", cfg.token, k);
    }
  }

  /** One `key=value` pair of a query string, both halves escaped. */
  function QueryPair(kv: (string, string)): string {
    Escape(kv.0) + "=" + Escape(kv.1)
  }

  function QueryPairs(q: Dict): (r: seq<string>)
    ensures |r| == |q| && forall i | 0 <= i < |q| :: r[i] == QueryPair(q[i])
  {
    if q == [] then [] else [QueryPair(q[0])] + QueryPairs(q[1..])
  }

  /** The text a V3 GET appends to its URL: nothing for no parameters, else `?` and the pairs joined by `&`. */
  function QueryString(q: Dict): (r: string)
    ensures r == "" <==> |q| == 0
    ensures |q| > 0 ==> r[0] == '?'
  {
    if |q| == 0 then "" else "?" + Join(QueryPairs(q), "&")
  }

  // ---------------------------------------------------------------------------
  // The reference reading of a query string

  function ParsePair(piece: string): Option<(string, string)> {
    var halves := Split(piece, '=');
    if |halves| != 2 then None
    else
      match (Unescape(halves[0]), Unescape(halves[1]))
      case (Some(k), Some(v)) => Some((k, v))
      case _ => None
  }

  function ParsePairs(pieces: seq<string>): Option<Dict> {
    if pieces == [] then Some([])
    else
      match (ParsePair(pieces[0]), ParsePairs(pieces[1..]))
      case (Some(kv), Some(rest)) => Some([kv] + rest)
      case _ => None
  }

  /** Splits a query string at `&` and `=` and unescapes both halves of every pair. */
  function ParseQuery(s: string): Option<Dict> {
    if s == "" then Some([])
    else if s[0] != '?' then None
    else ParsePairs(Split(s[1..], '&'))
  }

  lemma EscapeHasNoDelimiter(s: string)
    ensures '&' !in Escape(s) && '=' !in Escape(s)
  {
    var e := Escape(s);
    assert forall i | 0 <= i < |e| :: e[i] != '&' && e[i] != '=';
  }

  lemma ParsePairOfQueryPair(kv: (string, string))
    ensures ParsePair(QueryPair(kv)) == Some(kv)
  {
    EscapeHasNoDelimiter(kv.0);
    EscapeHasNoDelimiter(kv.1);
    var parts := [Escape(kv.0), Escape(kv.1)];
    assert Join(parts, "=") == QueryPair(kv);
    SplitJoin(parts, '=');
    EscapeRoundTrip(kv.0);
    EscapeRoundTrip(kv.1);
  }

  lemma {:induction false} ParsePairsOfQueryPairs(q: Dict)
    ensures ParsePairs(QueryPairs(q)) == Some(q)
  {
    if q != [] {
      ParsePairOfQueryPair(q[0]);
      ParsePairsOfQueryPairs(q[1..]);
      assert QueryPairs(q)[1..] == QueryPairs(q[1..]);
      assert [q[0]] + q[1..] == q;
    }
  }

  /** The query string carries exactly the parameters, in order, whatever characters they hold. */
  lemma QueryStringRoundTrip(q: Dict)
    ensures ParseQuery(QueryString(q)) == Some(q)
  {
    if |q| > 0 {
      var pairs := QueryPairs(q);
      forall k | 0 <= k < |pairs| ensures '&' !in pairs[k] {
        EscapeHasNoDelimiter(q[k].0);
        EscapeHasNoDelimiter(q[k].1);
      }
      SplitJoin(pairs, '&');
      assert QueryString(q)[1..] == Join(pairs, "&");
      ParsePairsOfQueryPairs(q);
    }
  }

  // ---------------------------------------------------------------------------
  // Requests and replies

  /** What the client asks of the transport. */
  datatype Request =
    | FormPost(url: string, form: Dict)
    | JsonGet(url: string)
    | JsonPost(url: string, body: Json)

  /** `(success, body, status)`: success is a 2xx status. */
  datatype Reply = Reply(ok: bool, body: string, status: int)

  /** The HTTP exchange; None stands for a call that threw. */
  type Transport = Request -> Option<Reply>

  /** A call's outcome as the client sees it: a thrown call is `(false, "", 0)`. */
  function Call(send: Transport, req: Request): (r: Reply)
    ensures send(req).None? ==> r == Reply(false, "", 0)
    ensures send(req).Some? ==> r == send(req).value
  {
    send(req).GetOr(Reply(false, "", 0))
  }

  /** `Rest1PostAsync`. */
  function Rest1(cfg: Config, path: string, form: Dict): (r: Request)
    ensures r.FormPost? && r.url == JoinUrl(cfg.baseUrl, path)
    ensures UniqueKeys(form) ==>
      UniqueKeys(r.form) && Get(r.form, "token") == Some(cfg.token)
      && forall k | k != "token" :: Get(r.form, k) == Get(form, k)
  {
    if UniqueKeys(form) then
      Rest1FormCarriesToken(cfg, form);
      FormPost(JoinUrl(cfg.baseUrl, path), Rest1Form(cfg, form))
    else
      FormPost(JoinUrl(cfg.baseUrl, path), Rest1Form(cfg, form))
  }

  /** `V3GetAsync`; the empty dictionary stands for both no and an empty parameter set. */
  function V3Get(cfg: Config, path: string, query: Dict): (r: Request)
    ensures r.JsonGet?
    ensures |query| == 0 ==> r.url == JoinUrl(cfg.baseUrl, path)
    ensures var prefix := JoinUrl(cfg.baseUrl, path);
      |prefix| <= |r.url| && r.url[..|prefix|] == prefix && ParseQuery(r.url[|prefix|..]) == Some(query)
  {
    var prefix := JoinUrl(cfg.baseUrl, path);
    var url := prefix + QueryString(query);
    assert url[..|prefix|] == prefix && url[|prefix|..] == QueryString(query);
    QueryStringRoundTrip(query);
    JsonGet(url)
  }

  /** `V3PostAsync`, with the body already in its serialized shape. */
  function V3Post(cfg: Config, path: string, body: Json): (r: Request)
    ensures r.JsonPost? && r.url == JoinUrl(cfg.baseUrl, path) && r.body == body
  {
    JsonPost(JoinUrl(cfg.baseUrl, path), body)
  }
}
