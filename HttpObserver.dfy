/**
 * The Thermos observer's HTTP layer: the Basic-authentication plugin that
 * looks user records up in Redis through a module-level cache, decides whether
 * a request's credentials match, and answers 401 otherwise; the switch that
 * installs the plugin; and the parameter checks of the `/main` and `/process`
 * pages. Redis is the contents of the server as a map, the cache a plain map,
 * and the hex SHA-256 of a text (after encoding) an opaque function parameter.
 */
module HttpObserver {
  import opened Wrappers
  import opened Text

  // ---------------------------------------------------------------------------
  // The cache-aside user lookup (`get_user`), as values
  // ---------------------------------------------------------------------------

  /** The key prefix the plugin uses until `setup` installs the configured one. */
  const DefaultKeyPrefix := "/aurora/thermos/user/"

  /** Python truthiness of what the Redis client returns: `None` and `""` are false. */
  predicate Truthy(v: Option<string>) {
    v.Some? && v.value != ""
  }

  /** `Redis.get(key)`: the stored value, or `None` for a key the server does not hold. */
  function RedisGet(contents: map<string, string>, key: string): Option<string> {
    if key in contents then Some(contents[key]) else None
  }

  /** Only `get_user` writes the cache, and it writes only truthy values. */
  predicate CacheValid(entries: map<string, string>) {
    forall u :: u in entries ==> entries[u] != ""
  }

  /** What `get_user(user)` returns for a user name, given the cache and the store. */
  function UserValue(entries: map<string, string>, contents: map<string, string>, prefix: string, user: string): Option<string> {
    if user in entries then Some(entries[user])
    else
      var v := RedisGet(contents, prefix + user);
      if Truthy(v) then v else None
  }

  /** The cache after `get_user(user)`. */
  function CacheAfter(entries: map<string, string>, contents: map<string, string>, prefix: string, user: string): map<string, string> {
    if user in entries then entries
    else
      var v := RedisGet(contents, prefix + user);
      if Truthy(v) then entries[user := v.value] else entries
  }

  /** The keys `get_user(user)` sends to the store: none on a hit, `prefix + user` on a miss. */
  function QueriesOf(entries: map<string, string>, prefix: string, user: string): seq<string> {
    if user in entries then [] else [prefix + user]
  }

  /**
   * A hit answers from the cache and changes nothing; a miss answers with the
   * store's value when it is truthy and caches it, and otherwise answers `None`
   * and leaves the cache as it was.
   */
  lemma UserValueCases(entries: map<string, string>, contents: map<string, string>, prefix: string, user: string)
    ensures user in entries ==>
      UserValue(entries, contents, prefix, user) == Some(entries[user])
      && CacheAfter(entries, contents, prefix, user) == entries
      && QueriesOf(entries, prefix, user) == []
    ensures user !in entries && prefix + user in contents && contents[prefix + user] != "" ==>
      UserValue(entries, contents, prefix, user) == Some(contents[prefix + user])
      && CacheAfter(entries, contents, prefix, user) == entries[user := contents[prefix + user]]
      && QueriesOf(entries, prefix, user) == [prefix + user]
    ensures user !in entries && (prefix + user !in contents || contents[prefix + user] == "") ==>
      UserValue(entries, contents, prefix, user) == None
      && CacheAfter(entries, contents, prefix, user) == entries
      && QueriesOf(entries, prefix, user) == [prefix + user]
  {
  }

  /** The lookup keeps the cache free of empty values and never answers with one. */
  lemma UserValueTruthy(entries: map<string, string>, contents: map<string, string>, prefix: string, user: string)
    requires CacheValid(entries)
    ensures CacheValid(CacheAfter(entries, contents, prefix, user))
    ensures UserValue(entries, contents, prefix, user) == None || Truthy(UserValue(entries, contents, prefix, user))
  {
  }

  /** The cache only grows, and only at `user`. */
  lemma CacheAfterOnlyUser(entries: map<string, string>, contents: map<string, string>, prefix: string, user: string)
    ensures entries.Keys <= CacheAfter(entries, contents, prefix, user).Keys
    ensures forall u :: u in entries ==> CacheAfter(entries, contents, prefix, user)[u] == entries[u]
    ensures forall u :: u != user ==> (u in CacheAfter(entries, contents, prefix, user) <==> u in entries)
  {
  }

  /**
   * Once a lookup has found a user, the next one is a hit that returns the same
   * value and queries nothing, whatever the store and the prefix are by then.
   */
  lemma SecondLookupHits(entries: map<string, string>, contents: map<string, string>, prefix: string, user: string,
                         contents': map<string, string>, prefix': string)
    requires UserValue(entries, contents, prefix, user).Some?
    ensures var after := CacheAfter(entries, contents, prefix, user);
      && user in after
      && QueriesOf(after, prefix', user) == []
      && UserValue(after, contents', prefix', user) == UserValue(entries, contents, prefix, user)
      && CacheAfter(after, contents', prefix', user) == after
  {
  }

  /** The cache agrees with the store: every cached user's record holds the cached value. */
  predicate Coherent(entries: map<string, string>, contents: map<string, string>, prefix: string) {
    forall u :: u in entries ==> prefix + u in contents && contents[prefix + u] == entries[u]
  }

  /**
   * While the store and the prefix stay the same, the cache is invisible: the
   * lookup answers what the store holds (when truthy), and the cache stays coherent.
   */
  lemma CacheTransparent(entries: map<string, string>, contents: map<string, string>, prefix: string, user: string)
    requires CacheValid(entries) && Coherent(entries, contents, prefix)
    ensures UserValue(entries, contents, prefix, user) == (if Truthy(RedisGet(contents, prefix + user)) then RedisGet(contents, prefix + user) else None)
    ensures Coherent(CacheAfter(entries, contents, prefix, user), contents, prefix)
  {
    if user in entries {
      assert prefix + user in contents && contents[prefix + user] == entries[user];
    }
  }

  // ---------------------------------------------------------------------------
  // The credential decision and the 401 challenge
  // ---------------------------------------------------------------------------

  type Octet = x: int | 0 <= x < 256

  /** Python's `'%s' % v` for a value that is a string or `None`. */
  function Shown(v: Option<string>): string {
    if v.Some? then v.value else "None"
  }

  /** The argument `hashlib.sha256` receives: a text (`str`) or octets (`bytes`). */
  datatype HashInput = Str(text: string) | Bytes(octets: seq<Octet>)

  /** The `TypeError` Python 3's `hashlib` raises for a `str`. */
  datatype HashError = StringsMustBeEncoded

  /** `hashlib.sha256(x).hexdigest()`, with `sha` the hex digest of octets: a `str` is refused. */
  function HashLib(sha: seq<Octet> -> string, x: HashInput): (r: Result<string, HashError>)
    ensures r.Success? <==> x.Bytes?
  {
    match x
    case Str(_) => Failure(StringsMustBeEncoded)
    case Bytes(b) => Success(sha(b))
  }

  /** `userhash` as written: the formatted `user:password` text itself is hashed. */
  function UserHashAsWritten(sha: seq<Octet> -> string, user: Option<string>, password: Option<string>): Result<string, HashError> {
    HashLib(sha, Str(Shown(user) + ":" + Shown(password)))
  }

  /** Every request, with or without credentials, makes `apply` and `wrap` raise before any check. */
  lemma UserHashAsWrittenRaises(sha: seq<Octet> -> string, user: Option<string>, password: Option<string>)
    ensures UserHashAsWritten(sha, user, password) == Failure(StringsMustBeEncoded)
  {
  }

  /** `userhash` as intended: the text is encoded (by `encode`) before it is hashed. */
  function IntendedUserHash(sha: seq<Octet> -> string, encode: string -> seq<Octet>,
                            user: Option<string>, password: Option<string>): Result<string, HashError> {
    HashLib(sha, Bytes(encode(Shown(user) + ":" + Shown(password))))
  }

  /**
   * The intended hash never raises, and for present credentials it is the
   * digest the record is compared with (`digest` being `sha` after `encode`).
   */
  lemma IntendedUserHashRecord(sha: seq<Octet> -> string, encode: string -> seq<Octet>, user: string, password: string)
    ensures IntendedUserHash(sha, encode, Some(user), Some(password)).Success?
    ensures "sha256:" + IntendedUserHash(sha, encode, Some(user), Some(password)).value
      == ExpectedRecord(t => sha(encode(t)), user, password)
  {
  }

  /** The record a user's credentials must match: `'sha256:' + hex(sha256(user + ':' + password))`. */
  function ExpectedRecord(digest: string -> string, user: string, password: string): string {
    "sha256:" + digest(user + ":" + password)
  }

  /** `apply`'s test, given what `get_user` returns for the request's user. */
  predicate Accepts(digest: string -> string, user: Option<string>, password: Option<string>, stored: Option<string>) {
    user.Some? && password.Some? && stored == Some(ExpectedRecord(digest, user.value, password.value))
  }

  /**
   * With a coherent cache, a request is accepted exactly when both credentials
   * are present and the store holds the expected record under `prefix + user`.
   */
  lemma AcceptsIffStored(entries: map<string, string>, contents: map<string, string>, prefix: string,
                         digest: string -> string, user: string, password: Option<string>)
    requires CacheValid(entries) && Coherent(entries, contents, prefix)
    ensures Accepts(digest, Some(user), password, UserValue(entries, contents, prefix, user))
      <==>
      password.Some? && prefix + user in contents
      && contents[prefix + user] == ExpectedRecord(digest, user, password.value)
  {
    CacheTransparent(entries, contents, prefix, user);
  }

  /** A request without a user or without a password is never accepted, whatever is stored. */
  lemma MissingCredentialRejected(digest: string -> string, user: Option<string>, password: Option<string>, stored: Option<string>)
    requires user.None? || password.None?
    ensures !Accepts(digest, user, password, stored)
  {
  }

  /** What a route answers: the wrapped callback's own result, or a bare status with headers. */
  datatype Response = Forwarded | Status(code: nat, headers: seq<(string, string)>)

  const ChallengeHeader := "WWW-Authenticate"
  const RealmPrefix := "Basic realm=\""

  /** The 401 answer: `WWW-Authenticate: Basic realm="<realm>"`. */
  function Challenge(realm: string): Response {
    Status(401, [(ChallengeHeader, RealmPrefix + realm + "\"")])
  }

  /** The realm a `Basic realm="..."` header value names, if it has that form. */
  function RealmOf(value: string): Option<string> {
    if |value| >= |RealmPrefix| + 1 && value[..|RealmPrefix|] == RealmPrefix && value[|value| - 1] == '"' then
      Some(value[|RealmPrefix|..|value| - 1])
    else None
  }

  /** The challenge is a 401 with one `WWW-Authenticate` header that names the plugin's realm. */
  lemma ChallengeNamesRealm(realm: string)
    ensures Challenge(realm).Status? && Challenge(realm).code == 401
    ensures |Challenge(realm).headers| == 1 && Challenge(realm).headers[0].0 == ChallengeHeader
    ensures RealmOf(Challenge(realm).headers[0].1) == Some(realm)
  {
    var v := RealmPrefix + realm + "\"";
    assert v[..|RealmPrefix|] == RealmPrefix;
    assert v[|RealmPrefix|..|v| - 1] == realm;
  }

  /** What `apply` hands back for a route: the bare callback, or the checking `wrap`. */
  datatype Handler = Bare | Wrapped

  /** A request served by a handler, given whether its credentials are accepted. */
  function Serve(h: Handler, accepted: bool, realm: string): Response {
    match h
    case Bare => Forwarded
    case Wrapped => if accepted then Forwarded else Challenge(realm)
  }

  /** `apply` as written: the request in scope when the route is first prepared decides. */
  function ApplyAsWritten(acceptedNow: bool): Handler {
    if acceptedNow then Bare else Wrapped
  }

  /** A route prepared during an accepted request later serves a request that is not accepted. */
  lemma ApplyAsWrittenBypass(realm: string)
    ensures Serve(ApplyAsWritten(true), false, realm) == Forwarded
    ensures Serve(ApplyAsWritten(false), false, realm) == Challenge(realm)
  {
  }

  /** `apply` as intended: always the checking `wrap`. */
  function IntendedApply(acceptedNow: bool): Handler {
    Wrapped
  }

  /** With the intended `apply`, every request is served iff it is accepted, and refused with the challenge otherwise. */
  lemma IntendedApplyChecksEvery(acceptedNow: bool, accepted: bool, realm: string)
    ensures Serve(IntendedApply(acceptedNow), accepted, realm) == Forwarded <==> accepted
    ensures !accepted ==> Serve(IntendedApply(acceptedNow), accepted, realm) == Challenge(realm)
  {
    ChallengeNamesRealm(realm);
  }

  // ---------------------------------------------------------------------------
  // The plugin object
  // ---------------------------------------------------------------------------

  /** The observer options the authentication reads. */
  datatype Options = Options(enableAuthentication: Option<string>, redisCluster: string, redisKeyPrefix: string)

  /** An installed plugin as `setup` inspects it: whether it is a `BasicAuth`, and its keyword. */
  datatype PluginInfo = PluginInfo(isBasicAuth: bool, keyword: string)

  /** The `RuntimeError` `setup` raises. */
  datatype SetupError = NonUniqueKeyword

  /** A Redis client: the URL it was made from and what the server holds. */
  datatype Redis = Redis(url: string, contents: map<string, string>)

  predicate IsConflict(p: PluginInfo, keyword: string) {
    p.isBasicAuth && p.keyword == keyword
  }

  /** Another `BasicAuth` with the same keyword is already installed. */
  predicate Conflicts(plugins: seq<PluginInfo>, keyword: string) {
    exists k :: 0 <= k < |plugins| && IsConflict(plugins[k], keyword)
  }

  /** The module-level `cache`: an `ExpiringDict` without expiry or size limit. */
  class UserCache {
    var entries: map<string, string>

    predicate Valid()
      reads this
    {
      CacheValid(entries)
    }

    constructor()
      ensures entries == map[] && Valid()
    {
      entries := map[];
    }
  }

  /** A bottle application, as far as `setup` and `install` touch it. */
  class App {
    var plugins: seq<PluginInfo>

    constructor(plugins: seq<PluginInfo>)
      ensures this.plugins == plugins
    {
      this.plugins := plugins;
    }
  }

  const DefaultRealm := "Thermos Observer"

  class BasicAuth {
    const options: Options
    const realm: string
    const keyword: string
    const cache: UserCache
    var app: App?
    var redis: Option<Redis>
    var keyPrefix: string
    /** Every key sent to the Redis server, in order. */
    var queries: seq<string>

    constructor(options: Options, realm: string, keyword: string, cache: UserCache)
      ensures this.options == options && this.realm == realm && this.keyword == keyword && this.cache == cache
      ensures app == null && redis == None && keyPrefix == DefaultKeyPrefix && queries == []
    {
      this.options := options;
      this.realm := realm;
      this.keyword := keyword;
      this.cache := cache;
      app := null;
      redis := None;
      keyPrefix := DefaultKeyPrefix;
      queries := [];
    }

    /** What the Redis server holds (nothing before `setup`). */
    function Contents(): map<string, string>
      reads this
    {
      if redis.Some? then redis.value.contents else map[]
    }

    /**
     * `setup(app)`: remember the app, refuse when another `BasicAuth` with this
     * keyword is installed, else connect to the configured Redis and take the
     * configured key prefix.
     */
    method Setup(app: App, server: map<string, string>) returns (r: Result<(), SetupError>)
      modifies this
      ensures this.app == app
      ensures r.Failure? <==> Conflicts(app.plugins, keyword)
      ensures r.Failure? ==> r.error == NonUniqueKeyword && redis == old(redis) && keyPrefix == old(keyPrefix)
      ensures r.Success? ==> redis == Some(Redis(options.redisCluster, server)) && keyPrefix == options.redisKeyPrefix
      ensures queries == old(queries)
    {
      this.app := app;
      var i := 0;
      while i < |app.plugins|
        invariant 0 <= i <= |app.plugins|
        invariant forall k :: 0 <= k < i ==> !IsConflict(app.plugins[k], keyword)
        invariant redis == old(redis) && keyPrefix == old(keyPrefix) && queries == old(queries) && this.app == app
      {
        var other := app.plugins[i];
        if other.isBasicAuth && other.keyword == keyword {
          return Failure(NonUniqueKeyword);
        }
        i := i + 1;
      }
      redis := Some(Redis(options.redisCluster, server));
      keyPrefix := options.redisKeyPrefix;
      return Success(());
    }

    /** `get_user(user)`: the cache first, then the store under `keyPrefix + user`. */
    method GetUser(user: Option<string>) returns (r: Option<string>)
      requires user.Some? && user.value !in cache.entries ==> redis.Some?
      modifies this`queries, cache`entries
      ensures user.None? ==> r == None && cache.entries == old(cache.entries) && queries == old(queries)
      ensures user.Some? ==>
        && r == UserValue(old(cache.entries), Contents(), keyPrefix, user.value)
        && cache.entries == CacheAfter(old(cache.entries), Contents(), keyPrefix, user.value)
        && queries == old(queries) + QueriesOf(old(cache.entries), keyPrefix, user.value)
    {
      if user.None? {
        return None;
      }
      var u := user.value;
      if u in cache.entries {
        return Some(cache.entries[u]);
      }
      var key := keyPrefix + u;
      queries := queries + [key];
      var val := RedisGet(redis.value.contents, key);
      if val.Some? && val.value != "" {
        cache.entries := cache.entries[u := val.value];
        return val;
      }
      return None;
    }

    /**
     * The credential test of `apply` and `wrap`, given `userhash` (the hex digest
     * computed for the request): the user is looked up only when both the user
     * and the password are present.
     */
    method Authorized(userhash: string, user: Option<string>, password: Option<string>) returns (ok: bool)
      requires user.Some? && password.Some? && user.value !in cache.entries ==> redis.Some?
      modifies this`queries, cache`entries
      ensures user.Some? && password.Some? ==>
        && (ok <==> UserValue(old(cache.entries), Contents(), keyPrefix, user.value) == Some("sha256:" + userhash))
        && cache.entries == CacheAfter(old(cache.entries), Contents(), keyPrefix, user.value)
        && queries == old(queries) + QueriesOf(old(cache.entries), keyPrefix, user.value)
      ensures user.None? || password.None? ==> !ok && cache.entries == old(cache.entries) && queries == old(queries)
    {
      if user.None? || password.None? {
        return false;
      }
      var stored := GetUser(user);
      ok := stored == Some("sha256:" + userhash);
    }

    /**
     * `apply(callback, context)`: the request's `userhash` is computed first, and
     * its failure propagates before any lookup; otherwise the bare callback when
     * the current request is accepted, else the checking wrapper.
     */
    method Apply(userhash: (Option<string>, Option<string>) -> Result<string, HashError>,
                 user: Option<string>, password: Option<string>) returns (r: Result<Handler, HashError>)
      requires userhash(user, password).Success? && user.Some? && password.Some? && user.value !in cache.entries ==> redis.Some?
      modifies this`queries, cache`entries
      ensures userhash(user, password).Failure? ==>
        r == Failure(userhash(user, password).error) && cache.entries == old(cache.entries) && queries == old(queries)
      ensures userhash(user, password).Success? ==>
        r == Success(ApplyAsWritten(user.Some? && password.Some?
          && UserValue(old(cache.entries), old(Contents()), old(keyPrefix), user.value) == Some("sha256:" + userhash(user, password).value)))
      ensures userhash(user, password).Success? && user.Some? && password.Some? ==>
        && cache.entries == CacheAfter(old(cache.entries), old(Contents()), old(keyPrefix), user.value)
        && queries == old(queries) + QueriesOf(old(cache.entries), old(keyPrefix), user.value)
      ensures user.None? || password.None? ==> cache.entries == old(cache.entries) && queries == old(queries)
    {
      var hash := userhash(user, password);
      if hash.Failure? {
        return Failure(hash.error);
      }
      var ok := Authorized(hash.value, user, password);
      r := Success(ApplyAsWritten(ok));
    }

    /** `wrap(...)`: one request through the checking handler, which computes `userhash` first as well. */
    method Wrap(userhash: (Option<string>, Option<string>) -> Result<string, HashError>,
                user: Option<string>, password: Option<string>) returns (r: Result<Response, HashError>)
      requires userhash(user, password).Success? && user.Some? && password.Some? && user.value !in cache.entries ==> redis.Some?
      modifies this`queries, cache`entries
      ensures userhash(user, password).Failure? ==>
        r == Failure(userhash(user, password).error) && cache.entries == old(cache.entries) && queries == old(queries)
      ensures userhash(user, password).Success? ==>
        r == Success(Serve(Wrapped, user.Some? && password.Some?
          && UserValue(old(cache.entries), old(Contents()), old(keyPrefix), user.value) == Some("sha256:" + userhash(user, password).value), realm))
      ensures userhash(user, password).Success? && user.Some? && password.Some? ==>
        && cache.entries == CacheAfter(old(cache.entries), old(Contents()), old(keyPrefix), user.value)
        && queries == old(queries) + QueriesOf(old(cache.entries), old(keyPrefix), user.value)
      ensures user.None? || password.None? ==> cache.entries == old(cache.entries) && queries == old(queries)
    {
      var hash := userhash(user, password);
      if hash.Failure? {
        return Failure(hash.error);
      }
      var ok := Authorized(hash.value, user, password);
      r := Success(Serve(Wrapped, ok, realm));
    }
  }

  /** With `userhash` as written, `apply` raises on every request and looks nothing up. */
  method ApplyAsWrittenRaises(auth: BasicAuth, sha: seq<Octet> -> string, user: Option<string>, password: Option<string>)
    returns (r: Result<Handler, HashError>)
    modifies auth`queries, auth.cache`entries
    ensures r == Failure(StringsMustBeEncoded)
    ensures auth.cache.entries == old(auth.cache.entries) && auth.queries == old(auth.queries)
  {
    UserHashAsWrittenRaises(sha, user, password);
    r := auth.Apply((u, p) => UserHashAsWritten(sha, u, p), user, password);
  }

  /** With `userhash` as written, the checking wrapper also raises on every request. */
  method WrapAsWrittenRaises(auth: BasicAuth, sha: seq<Octet> -> string, user: Option<string>, password: Option<string>)
    returns (r: Result<Response, HashError>)
    modifies auth`queries, auth.cache`entries
    ensures r == Failure(StringsMustBeEncoded)
    ensures auth.cache.entries == old(auth.cache.entries) && auth.queries == old(auth.queries)
  {
    UserHashAsWrittenRaises(sha, user, password);
    r := auth.Wrap((u, p) => UserHashAsWritten(sha, u, p), user, password);
  }

  /**
   * With the intended `userhash`, the test `apply` and `wrap` make is `Accepts`
   * for the digest of the encoded text: an intended hash never raises, and
   * `get_user` matching `sha256:<hash>` means the stored record is the expected one.
   */
  lemma IntendedHashAccepts(sha: seq<Octet> -> string, encode: string -> seq<Octet>,
                            user: Option<string>, password: Option<string>, stored: Option<string>)
    ensures IntendedUserHash(sha, encode, user, password).Success?
    ensures (user.Some? && password.Some? && stored == Some("sha256:" + IntendedUserHash(sha, encode, user, password).value))
      <==> Accepts(t => sha(encode(t)), user, password, stored)
  {
    if user.Some? && password.Some? {
      IntendedUserHashRecord(sha, encode, user.value, password.value);
    }
  }

  // ---------------------------------------------------------------------------
  // Installing the plugin (`AuthenticateEverything.__init__`)
  // ---------------------------------------------------------------------------

  /** `enable_authentication is not None and enable_authentication.lower() == 'basic'`. */
  predicate ShouldInstall(setting: Option<string>) {
    setting.Some? && Lower(setting.value) == "basic"
  }

  /** The setting turns authentication on exactly when it spells `basic` in any mix of cases. */
  lemma ShouldInstallSpellings(setting: Option<string>)
    ensures ShouldInstall(setting)
      <==>
      setting.Some? && |setting.value| == 5
      && forall i :: 0 <= i < 5 ==> setting.value[i] == "basic"[i] || setting.value[i] == "BASIC"[i]
  {
    if setting.Some? && |setting.value| == 5 {
      var s := setting.value;
      if forall i :: 0 <= i < 5 ==> s[i] == "basic"[i] || s[i] == "BASIC"[i] {
        assert Lower(s)[0] == 'b' && Lower(s)[1] == 'a' && Lower(s)[2] == 's' && Lower(s)[3] == 'i' && Lower(s)[4] == 'c';
        assert Lower(s) == "basic";
      }
      if Lower(s) == "basic" {
        forall i | 0 <= i < 5
          ensures s[i] == "basic"[i] || s[i] == "BASIC"[i]
        {
          assert LowerChar(s[i]) == "basic"[i];
        }
      }
    }
  }

  /** `AuthenticateEverything.plugins`, the list shared by every instance. */
  class Registry {
    var plugins: seq<BasicAuth>

    constructor()
      ensures plugins == []
    {
      plugins := [];
    }
  }

  /**
   * `AuthenticateEverything.__init__(options)`: when authentication is on, make
   * a `BasicAuth` with the default realm, install it in the app (`setup`, then
   * append) and record it; a failing `setup` propagates and nothing is appended.
   */
  method AuthenticateEverything(options: Options, app: App, registry: Registry, cache: UserCache,
                                keyword: string, server: map<string, string>)
    returns (r: Result<Option<BasicAuth>, SetupError>)
    modifies app, registry
    ensures !ShouldInstall(options.enableAuthentication) ==>
      r == Success(None) && app.plugins == old(app.plugins) && registry.plugins == old(registry.plugins)
    ensures ShouldInstall(options.enableAuthentication) && Conflicts(old(app.plugins), keyword) ==>
      r == Failure(NonUniqueKeyword) && app.plugins == old(app.plugins) && registry.plugins == old(registry.plugins)
    ensures ShouldInstall(options.enableAuthentication) && !Conflicts(old(app.plugins), keyword) ==>
      && r.Success? && r.value.Some? && fresh(r.value.value)
      && r.value.value.realm == DefaultRealm && r.value.value.cache == cache && r.value.value.app == app
      && r.value.value.redis == Some(Redis(options.redisCluster, server))
      && r.value.value.keyPrefix == options.redisKeyPrefix
      && app.plugins == old(app.plugins) + [PluginInfo(true, keyword)]
      && registry.plugins == old(registry.plugins) + [r.value.value]
      && Conflicts(app.plugins, keyword)
  {
    if !ShouldInstall(options.enableAuthentication) {
      return Success(None);
    }
    var plugin := new BasicAuth(options, DefaultRealm, keyword, cache);
    var s := plugin.Setup(app, server);
    if s.Failure? {
      return Failure(s.error);
    }
    app.plugins := app.plugins + [PluginInfo(true, keyword)];
    registry.plugins := registry.plugins + [plugin];
    assert IsConflict(app.plugins[|app.plugins| - 1], keyword);
    return Success(Some(plugin));
  }

  // ---------------------------------------------------------------------------
  // Route parameters
  // ---------------------------------------------------------------------------

  /** `HttpServer.abort(status, message)`. */
  datatype Abort = Abort(status: nat, message: string)

  /** The arguments `handle_main` forwards to `observer.main`. */
  datatype MainQuery = MainQuery(taskType: Option<string>, offset: Option<int>, num: Option<int>)

  /** `type in (None, 'all', 'finished', 'active')`. */
  predicate ValidTaskType(t: Option<string>) {
    t.None? || t.value in {"all", "finished", "active"}
  }

  /** An optional route parameter `int()` accepts (an absent one is fine). */
  predicate Parses(p: Option<string>) {
    p.None? || ParseInt(p.value).Some?
  }

  /** The integer an accepted optional parameter stands for. */
  function ParsedParam(p: Option<string>): Option<int>
    requires Parses(p)
  {
    if p.None? then None else ParseInt(p.value)
  }

  /** `handle_main(type, offset, num)`: check the three parameters in order, then forward them. */
  function HandleMain(t: Option<string>, offset: Option<string>, num: Option<string>): Result<MainQuery, Abort> {
    if !ValidTaskType(t) then Failure(Abort(404, "Invalid task type: " + t.value))
    else if !Parses(offset) then Failure(Abort(404, "Invalid offset: " + offset.value))
    else if !Parses(num) then Failure(Abort(404, "Invalid count: " + num.value))
    else Success(MainQuery(t, ParsedParam(offset), ParsedParam(num)))
  }

  /**
   * `handle_main` forwards iff the type is one of the four and both numbers
   * parse; it forwards the type unchanged and the parsed numbers; every refusal
   * is a 404 naming the first parameter that failed.
   */
  lemma HandleMainSpec(t: Option<string>, offset: Option<string>, num: Option<string>)
    ensures HandleMain(t, offset, num).Success? <==> ValidTaskType(t) && Parses(offset) && Parses(num)
    ensures HandleMain(t, offset, num).Success? ==>
      && HandleMain(t, offset, num).value.taskType == t
      && (offset.None? <==> HandleMain(t, offset, num).value.offset.None?)
      && (offset.Some? ==> Some(HandleMain(t, offset, num).value.offset.value) == ParseInt(offset.value))
      && (num.None? <==> HandleMain(t, offset, num).value.num.None?)
      && (num.Some? ==> Some(HandleMain(t, offset, num).value.num.value) == ParseInt(num.value))
    ensures HandleMain(t, offset, num).Failure? ==>
      && HandleMain(t, offset, num).error.status == 404
      && (!ValidTaskType(t) ==> HandleMain(t, offset, num).error.message == "Invalid task type: " + t.value)
      && (ValidTaskType(t) && !Parses(offset) ==> HandleMain(t, offset, num).error.message == "Invalid offset: " + offset.value)
      && (ValidTaskType(t) && Parses(offset) && !Parses(num) ==> HandleMain(t, offset, num).error.message == "Invalid count: " + num.value)
  {
  }

  /** Numbers written as `str(n)` come through `handle_main` as the same numbers. */
  lemma HandleMainRoundTrip(t: Option<string>, offset: int, num: int)
    requires ValidTaskType(t)
    ensures HandleMain(t, Some(IntToString(offset)), Some(IntToString(num))) == Success(MainQuery(t, Some(offset), Some(num)))
  {
    ParseIntOfIntToString(offset);
    ParseIntOfIntToString(num);
  }

  /** What the observer reports for one run of a process. */
  datatype Run = Run(processRun: nat, state: string)

  /** What the observer recovers for a process from its task's configuration. */
  datatype Process = Process(cmdline: string)

  /** The template `handle_process` renders. */
  datatype ProcessPage = ProcessPage(taskId: string, name: string, status: string, cmdline: string, runs: map<nat, Option<Run>>)

  /**
   * `handle_process(task_id, process_id)`: `current` is `observer.process(task_id,
   * process_id)` (`None` for any falsy answer), `process` is `process_from_name`,
   * and `history(k)` is `observer.process(task_id, process_id, k)`.
   */
  method HandleProcess(taskId: string, processId: string, current: Option<Run>, process: Option<Process>,
                       history: nat -> Option<Run>)
    returns (r: Result<ProcessPage, Abort>)
    ensures current.None? ==> r == Failure(Abort(404, "Invalid task/process combination: " + taskId + "/" + processId))
    ensures current.Some? && process.None? ==> r == Failure(Abort(404, "Could not recover process: " + taskId + "/" + processId))
    ensures current.Some? && process.Some? ==>
      && r.Success?
      && r.value.taskId == taskId && r.value.name == processId
      && r.value.status == current.value.state && r.value.cmdline == process.value.cmdline
      && (forall k: nat :: k in r.value.runs <==> k <= current.value.processRun)
      && r.value.runs[current.value.processRun] == current
      && (forall k: nat :: k < current.value.processRun ==> r.value.runs[k] == history(k))
  {
    if current.None? {
      return Failure(Abort(404, "Invalid task/process combination: " + taskId + "/" + processId));
    }
    if process.None? {
      return Failure(Abort(404, "Could not recover process: " + taskId + "/" + processId));
    }
    var n := current.value.processRun;
    var all: map<nat, Option<Run>> := map[n := current];
    var run: nat := 0;
    while run < n
      invariant run <= n
      invariant forall k: nat :: k in all <==> k < run || k == n
      invariant all[n] == current
      invariant forall k: nat :: k < run ==> all[k] == history(k)
    {
      all := all[run := history(run)];
      run := run + 1;
    }
    var page := ProcessPage(taskId, processId, all[n].value.state, process.value.cmdline, all);
    return Success(page);
  }
}
