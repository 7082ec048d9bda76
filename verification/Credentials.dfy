/** Credential URLs: built by the reconciler, taken apart again by the migration command. */
module Credentials {
  import opened Wrappers
  import opened Text
  import opened Manifest

  const ADMIN := "postgres"
  const HOST := "postgres"
  const SCHEME := "postgres"

  // ------------------------------------------------------------------------- URLs

  datatype Url = Url(
    scheme: string,
    username: string,
    password: Option<string>,
    host: string,
    port: Option<nat>,
    path: string)

  function KnownDefault(scheme: string): Option<nat> {
    if scheme == "http" || scheme == "ws" then Some(80)
    else if scheme == "https" || scheme == "wss" then Some(443)
    else if scheme == "ftp" then Some(21)
    else None
  }

  function PortOrKnownDefault(url: Url): Option<nat> {
    if url.port.Some? then url.port else KnownDefault(url.scheme)
  }

  /** The authority [userinfo "@"] host [":" port]; the last at sign ends the user information. */
  function ParseAuthority(scheme: string, authority: string, path: string): Option<Url> {
    var at := LastOf(authority, '@');
    if at.Some? then ParseParts(scheme, authority[..at.value], authority[at.value + 1..], path)
    else ParseParts(scheme, "", authority, path)
  }

  /** An empty password counts as none. */
  function ParseParts(scheme: string, userinfo: string, hostPort: string, path: string): Option<Url> {
    var sep := FirstOf(userinfo, {':'});
    var password := if sep + 1 < |userinfo| then Some(userinfo[sep + 1..]) else None;
    var colon := LastOf(hostPort, ':');
    if colon.None? then Some(Url(scheme, userinfo[..sep], password, hostPort, None, path))
    else
      var port := ParsePort(hostPort[colon.value + 1..]);
      if port.None? then None
      else Some(Url(scheme, userinfo[..sep], password, hostPort[..colon.value], port, path))
  }

  /** The authority ends at the first slash, question mark or hash; query and fragment are dropped. */
  function ParseAfterScheme(scheme: string, rest: string): Option<Url> {
    var end := FirstOf(rest, {'/', '?', '#'});
    var tail := rest[end..];
    ParseAuthority(scheme, rest[..end], tail[..FirstOf(tail, {'?', '#'})])
  }

  /** scheme "://" authority path. */
  function ParseUrl(s: string): Option<Url> {
    var colon := FirstOf(s, {':'});
    if !(colon + 2 < |s| && s[colon + 1] == '/' && s[colon + 2] == '/') then None
    else ParseAfterScheme(s[..colon], s[colon + 3..])
  }

  function Authority(user: string, secret: string, host: string): string {
    user + ":" + secret + "@" + host + ":5432"
  }

  function DatabaseUrl(user: string, password: string, host: string, database: string): string
    requires IsBytes(password)
  {
    SCHEME + ("://" + (Authority(user, PercentEncode(password), host) + ("/" + database)))
  }

  /** The text of a built URL. */
  lemma UrlTextExactly(user: string, password: string, host: string, database: string)
    requires IsBytes(password)
    ensures DatabaseUrl(user, password, host, database) ==
            "postgres://" + user + ":" + PercentEncode(password) + "@" + host + ":5432/" + database
  {
    assert SCHEME + "://" == "postgres://" && ":5432" + "/" == ":5432/";
  }

  lemma PortIs5432()
    ensures ParsePort("5432") == Some(5432)
  {
    var s := "5432";
    assert s[..3] == "543" && s[..3][..2] == "54" && s[..3][..2][..1] == "5" && s[..3][..2][..1][..0] == "";
    assert DecimalValue(s[..3][..2][..1]) == 5;
    assert DecimalValue(s[..3][..2]) == 54;
    assert DecimalValue(s[..3]) == 543;
  }

  lemma UserinfoSplits(user: string, secret: string)
    requires IsWord(user)
    ensures var userinfo := user + ":" + secret;
      && FirstOf(userinfo, {':'}) == |user|
      && userinfo[..|user|] == user && userinfo[|user| + 1..] == secret
  {
    FirstOfSplit(user, ":" + secret, {':'});
    assert user + ":" + secret == user + (":" + secret);
  }

  lemma HostPortSplits(host: string)
    requires IsWord(host)
    ensures var hostPort := host + ":5432";
      && LastOf(hostPort, ':') == Some(|host|)
      && hostPort[..|host|] == host && ParsePort(hostPort[|host| + 1..]) == Some(5432)
  {
    LastOfSplit(host, ':', "5432");
    assert host + ":5432" == host + [':'] + "5432";
    assert (host + ":5432")[|host| + 1..] == "5432";
    PortIs5432();
  }

  lemma AuthoritySplits(scheme: string, userinfo: string, hostPort: string, path: string)
    requires forall i | 0 <= i < |hostPort| :: hostPort[i] != '@'
    ensures ParseAuthority(scheme, userinfo + ['@'] + hostPort, path) == ParseParts(scheme, userinfo, hostPort, path)
  {
    var authority := userinfo + ['@'] + hostPort;
    LastOfSplit(userinfo, '@', hostPort);
    assert authority[..|userinfo|] == userinfo && authority[|userinfo| + 1..] == hostPort;
  }

  lemma AuthorityRoundTrip(user: string, secret: string, host: string, path: string)
    requires IsWord(user) && IsEncoded(secret) && IsWord(host)
    ensures ParseAuthority(SCHEME, Authority(user, secret, host), path) ==
            Some(Url(SCHEME, user, if secret == "" then None else Some(secret), host, Some(5432), path))
  {
    var userinfo, hostPort := user + ":" + secret, host + ":5432";
    assert Authority(user, secret, host) == userinfo + ['@'] + hostPort;
    AuthoritySplits(SCHEME, userinfo, hostPort, path);
    UserinfoSplits(user, secret);
    HostPortSplits(host);
  }

  lemma SchemeSplits(rest: string)
    ensures ParseUrl(SCHEME + ("://" + rest)) == ParseAfterScheme(SCHEME, rest)
  {
    var s := SCHEME + ("://" + rest);
    FirstOfSplit(SCHEME, "://" + rest, {':'});
    assert s[..|SCHEME|] == SCHEME && s[|SCHEME| + 3..] == rest;
    assert s[|SCHEME| + 1] == '/' && s[|SCHEME| + 2] == '/';
  }

  lemma PathSplits(scheme: string, authority: string, database: string)
    requires IsWord(database)
    requires forall i | 0 <= i < |authority| :: authority[i] !in {'/', '?', '#'}
    ensures ParseAfterScheme(scheme, authority + ("/" + database)) == ParseAuthority(scheme, authority, "/" + database)
  {
    var path := "/" + database;
    FirstOfSplit(authority, path, {'/', '?', '#'});
    assert (authority + path)[..|authority|] == authority && (authority + path)[|authority|..] == path;
    FirstOfSplit(path, "", {'?', '#'});
    assert path + "" == path && path[..|path|] == path;
  }

  /** Building and parsing are inverse on every password, whatever bytes it holds. */
  lemma UrlRoundTrip(user: string, password: string, host: string, database: string)
    requires IsWord(user) && IsBytes(password) && IsWord(host) && IsWord(database)
    ensures ParseUrl(DatabaseUrl(user, password, host, database)) ==
            Some(Url(SCHEME, user, if password == "" then None else Some(PercentEncode(password)),
                     host, Some(5432), "/" + database))
  {
    var secret := PercentEncode(password);
    EncodingIsSafe(password);
    SchemeSplits(Authority(user, secret, host) + ("/" + database));
    AuthorityIsPlain(user, secret, host);
    PathSplits(SCHEME, Authority(user, secret, host), database);
    AuthorityRoundTrip(user, secret, host, "/" + database);
  }

  lemma AuthorityIsPlain(user: string, secret: string, host: string)
    requires IsWord(user) && IsEncoded(secret) && IsWord(host)
    ensures forall i | 0 <= i < |Authority(user, secret, host)| :: Authority(user, secret, host)[i] !in {'/', '?', '#'}
  {
  }

  // -------------------------------------------------------------------- identities

  datatype Identity = Identity(role: string, password: string)

  datatype IdentityError =
    | BadUrl
    | DifferentDatabase
    | NotUtf8
    | BadRoleName
    | ForeignRole
    | NeedsPassword
    | SameRoleAsOperations

  /** None is the refusal; a role that passes is only wrapped in quotes. */
  function QuotedRole(role: string): Option<string> {
    if role == "" || !IsWord(role) then None else Some("\"" + role + "\"")
  }

  function ParseIdentity(runtimeUrl: string, operationsUrl: string, expectedRole: string): Result<Identity, IdentityError> {
    var runtime, operations := ParseUrl(runtimeUrl), ParseUrl(operationsUrl);
    if runtime.None? || operations.None? then Err(BadUrl)
    else JudgeIdentity(runtime.value, operations.value, expectedRole)
  }

  function JudgeIdentity(runtime: Url, operations: Url, expectedRole: string): Result<Identity, IdentityError> {
    if runtime.host != operations.host
       || PortOrKnownDefault(runtime) != PortOrKnownDefault(operations)
       || runtime.path != operations.path then Err(DifferentDatabase)
    else
      var role := PercentDecode(runtime.username);
      if !ValidUtf8(role) then Err(NotUtf8)
      else if QuotedRole(role).None? then Err(BadRoleName)
      else if role != expectedRole then Err(ForeignRole)
      else if runtime.password.None? then Err(NeedsPassword)
      else
        var password := PercentDecode(runtime.password.value);
        if !ValidUtf8(password) then Err(NotUtf8)
        else if password == "" then Err(NeedsPassword)
        else
          var operationsRole := PercentDecode(operations.username);
          if !ValidUtf8(operationsRole) then Err(NotUtf8)
          else if role == operationsRole then Err(SameRoleAsOperations)
          else Ok(Identity(role, password))
  }

  /** percent_decode_str(path.trim_start_matches('/')) of the operations URL. */
  function DatabaseName(url: Url): string {
    PercentDecode(url.path[Slashes(url.path)..])
  }

  function Slashes(s: string): (n: nat)
    ensures n <= |s|
  {
    if s == "" || s[0] != '/' then 0 else 1 + Slashes(s[1..])
  }

  /** A built URL, taken apart. */
  function BuiltUrl(user: string, password: string, host: string, database: string): Url
    requires IsBytes(password)
  {
    Url(SCHEME, user, if password == "" then None else Some(PercentEncode(password)), host, Some(5432), "/" + database)
  }

  predicate IsBuilt(s: string, user: string, password: string, host: string, database: string) {
    && IsWord(user) && IsBytes(password) && IsWord(host) && IsWord(database)
    && s == DatabaseUrl(user, password, host, database)
  }

  lemma BuiltParses(s: string, user: string, password: string, host: string, database: string)
    requires IsBuilt(s, user, password, host, database)
    ensures ParseUrl(s) == Some(BuiltUrl(user, password, host, database))
  {
    UrlRoundTrip(user, password, host, database);
  }

  /** Everything but one server and database, the expected role and a password of its own role is refused. */
  ghost function Judgement(role: string, password: string, sameDatabase: bool, operationsRole: string, expected: string)
    : Result<Identity, IdentityError>
  {
    if !sameDatabase then Err(DifferentDatabase)
    else if role != expected then Err(ForeignRole)
    else if password == "" then Err(NeedsPassword)
    else if role == operationsRole then Err(SameRoleAsOperations)
    else Ok(Identity(role, password))
  }

  /** The parts of a URL, decoded. */
  predicate DecodesTo(url: Url, user: string, password: string, host: string, database: string) {
    && url.host == host && PortOrKnownDefault(url) == Some(5432) && url.path == "/" + database
    && PercentDecode(url.username) == user && ValidUtf8(user) && QuotedRole(user).Some?
    && (if url.password.None? then password == "" else PercentDecode(url.password.value) == password)
  }

  lemma BuiltDecodes(url: Url, user: string, password: string, host: string, database: string)
    requires user != "" && IsWord(user) && IsBytes(password) && url == BuiltUrl(user, password, host, database)
    ensures DecodesTo(url, user, password, host, database)
  {
    WordsDecodeToThemselves(user);
    WordsAreUtf8(user);
    DecodeEncode(password);
  }

  lemma PathsDiffer(a: string, b: string)
    ensures "/" + a == "/" + b <==> a == b
  {
    assert ("/" + a)[1..] == a && ("/" + b)[1..] == b;
  }

  lemma JudgedByParts(runtime: Url, role: string, password: string, host: string, database: string,
                      operations: Url, operationsRole: string, operationsPassword: string,
                      operationsHost: string, operationsDatabase: string, expected: string)
    requires DecodesTo(runtime, role, password, host, database) && ValidUtf8(password)
    requires DecodesTo(operations, operationsRole, operationsPassword, operationsHost, operationsDatabase)
    ensures JudgeIdentity(runtime, operations, expected) ==
            Judgement(role, password, host == operationsHost && database == operationsDatabase, operationsRole, expected)
  {
    PathsDiffer(database, operationsDatabase);
  }

  lemma BuiltParts(s: string, user: string, password: string, host: string, database: string) returns (url: Url)
    requires IsBuilt(s, user, password, host, database) && user != ""
    ensures ParseUrl(s) == Some(url) && DecodesTo(url, user, password, host, database)
  {
    url := BuiltUrl(user, password, host, database);
    BuiltParses(s, user, password, host, database);
    BuiltDecodes(url, user, password, host, database);
  }

  lemma ParsedThenJudged(runtimeUrl: string, operationsUrl: string, expected: string, runtime: Url, operations: Url)
    requires ParseUrl(runtimeUrl) == Some(runtime) && ParseUrl(operationsUrl) == Some(operations)
    ensures ParseIdentity(runtimeUrl, operationsUrl, expected) == JudgeIdentity(runtime, operations, expected)
  {
  }

  /**
   * What the migration command makes of two URLs built by the reconciler:
   * everything but one host and database, the expected role, a password and a role
   * of its own is refused, and what is accepted is the original role and password.
   */
  lemma BuiltUrlsAreJudgedExactly(runtimeUrl: string, role: string, password: string, host: string, database: string,
                                  operationsUrl: string, operationsRole: string, operationsPassword: string,
                                  operationsHost: string, operationsDatabase: string, expected: string)
    requires IsBuilt(runtimeUrl, role, password, host, database) && role != "" && ValidUtf8(password)
    requires IsBuilt(operationsUrl, operationsRole, operationsPassword, operationsHost, operationsDatabase)
    requires operationsRole != ""
    ensures ParseIdentity(runtimeUrl, operationsUrl, expected) ==
            Judgement(role, password, host == operationsHost && database == operationsDatabase, operationsRole, expected)
  {
    var runtime := BuiltParts(runtimeUrl, role, password, host, database);
    var operations := BuiltParts(operationsUrl, operationsRole, operationsPassword, operationsHost, operationsDatabase);
    ParsedThenJudged(runtimeUrl, operationsUrl, expected, runtime, operations);
    JudgedByParts(runtime, role, password, host, database,
      operations, operationsRole, operationsPassword, operationsHost, operationsDatabase, expected);
  }

  /** Any two URLs, built or not: what acceptance says of their parts, and conversely. */
  lemma IdentityAcceptedExactly(runtime: Url, operations: Url, expected: string, role: string, password: string)
    ensures JudgeIdentity(runtime, operations, expected) == Ok(Identity(role, password)) <==>
            && runtime.host == operations.host && runtime.path == operations.path
            && PortOrKnownDefault(runtime) == PortOrKnownDefault(operations)
            && role == expected && role == PercentDecode(runtime.username) && role != "" && IsWord(role)
            && runtime.password.Some? && password == PercentDecode(runtime.password.value)
            && password != "" && ValidUtf8(password)
            && ValidUtf8(PercentDecode(operations.username)) && role != PercentDecode(operations.username)
  {
    if IsWord(role) {
      WordsAreUtf8(role);
    }
  }

  /** PostgreSQL's port has no default here: another port, or one given and one not, is another database. */
  lemma DifferentPortsRefused(runtime: Url, operations: Url, expected: string)
    requires runtime.scheme == "postgres" && operations.scheme == "postgres" && runtime.port != operations.port
    ensures JudgeIdentity(runtime, operations, expected) == Err(DifferentDatabase)
  {
  }

  /** The role check by character ranges; a role that passes is put in double quotes as it is. */
  lemma RoleQuotedExactly(role: string)
    ensures QuotedRole(role) ==
            if role != "" && forall i | 0 <= i < |role| ::
                 || 'a' <= role[i] <= 'z' || 'A' <= role[i] <= 'Z' || '0' <= role[i] <= '9' || role[i] == '_'
            then Some("\"" + role + "\"") else None
  {
  }

  /** The migration command recovers the database name the reconciler put into the operations URL. */
  lemma DatabaseNameRecovered(operationsUrl: string, password: string, host: string, database: string)
    requires IsBuilt(operationsUrl, ADMIN, password, host, database)
    ensures ParseUrl(operationsUrl).Some? && DatabaseName(ParseUrl(operationsUrl).value) == database
  {
    BuiltParses(operationsUrl, ADMIN, password, host, database);
    NameInPath(BuiltUrl(ADMIN, password, host, database), database);
  }

  lemma NameInPath(url: Url, database: string)
    requires url.path == "/" + database && IsWord(database)
    ensures DatabaseName(url) == database
  {
    assert url.path[1..] == database;
    assert Slashes(url.path) == 1;
    WordsDecodeToThemselves(database);
  }

  // ------------------------------------------------------------------ scoped roles

  /** SHA-256, of which only the length of its value is used. */
  type Digest = d: string | |d| == 32 && IsBytes(d) witness seq(32, i => '0')

  datatype ScopedRoles = ScopedRoles(example: string, dispatcher: string, readiness: string)

  /** The first `limit` characters, decoded from UTF-8, each in lower case or as an underscore. */
  function SlugOf(name: string, limit: nat): (slug: string)
    ensures IsWord(slug) && |slug| <= limit
  {
    if name == "" || limit == 0 then "" else
      var width := if LeadLength(name) == 0 then 1 else LeadLength(name);
      var letter := if width == 1 && IsAlphanumeric(name[0]) then ToLower(name[0]) else '_';
      [letter] + SlugOf(name[width..], limit - 1)
  }

  function Slug(name: string): (slug: string)
    ensures IsWord(slug) && |slug| <= 12
  {
    SlugOf(name, 12)
  }

  function LowerHexDigit(n: int): char
    requires 0 <= n < 16
  {
    if n < 10 then ('0' as int + n) as char else ('a' as int + n - 10) as char
  }

  function LowerHex(bytes: string): (hex: string)
    requires IsBytes(bytes)
    ensures |hex| == 2 * |bytes| && IsWord(hex)
  {
    if bytes == "" then "" else
      var n := bytes[0] as int;
      [LowerHexDigit(n / 16), LowerHexDigit(n % 16)] + LowerHex(bytes[1..])
  }

  function Fingerprint(digest: Digest): string {
    LowerHex(digest[..16])
  }

  function ScopedRoleNames(name: string, sha256: string -> Digest): ScopedRoles {
    var suffix := Slug(name) + "_" + Fingerprint(sha256(name));
    ScopedRoles("bc_example_" + suffix, "bc_dispatch_" + suffix, "bc_ready_" + suffix)
  }

  /** How one character of an ASCII name looks in the slug. */
  ghost function SlugLetter(c: char): char {
    if 'A' <= c <= 'Z' then (c as int + 32) as char
    else if 'a' <= c <= 'z' || '0' <= c <= '9' then c
    else '_'
  }

  lemma {:induction false} AsciiSlug(name: string, limit: nat)
    requires forall i | 0 <= i < |name| :: name[i] as int < 128
    ensures |SlugOf(name, limit)| == if |name| <= limit then |name| else limit
    ensures forall i | 0 <= i < |SlugOf(name, limit)| :: SlugOf(name, limit)[i] == SlugLetter(name[i])
  {
    if name != "" && limit > 0 {
      assert LeadLength(name) == 1;
      AsciiSlug(name[1..], limit - 1);
    }
  }

  /** A character beyond ASCII becomes one underscore, however many bytes it takes. */
  lemma WideCharacterInSlug(name: string, limit: nat)
    requires name != "" && LeadLength(name) > 1 && limit > 0
    ensures SlugOf(name, limit) == "_" + SlugOf(name[LeadLength(name)..], limit - 1)
  {
  }

  /** Two lower-case hexadecimal digits a byte, the high one first. */
  lemma {:induction false} LowerHexExactly(bytes: string, i: nat)
    requires IsBytes(bytes) && i < |bytes|
    ensures var hex, n := LowerHex(bytes), bytes[i] as int;
      "0123456789abcdef"[n / 16] == hex[2 * i] && "0123456789abcdef"[n % 16] == hex[2 * i + 1]
  {
    var n := bytes[0] as int;
    if i == 0 {
      LowerHexDigitExactly(n / 16);
      LowerHexDigitExactly(n % 16);
    } else {
      LowerHexExactly(bytes[1..], i - 1);
      assert LowerHex(bytes)[2..] == LowerHex(bytes[1..]);
    }
  }

  lemma LowerHexDigitExactly(n: int)
    requires 0 <= n < 16
    ensures LowerHexDigit(n) == "0123456789abcdef"[n]
  {
  }

  /** The three names of a database with an ASCII name, letter by letter. */
  lemma ScopedNamesExactly(name: string, sha256: string -> Digest) returns (slug: string, hex: string)
    requires forall i | 0 <= i < |name| :: name[i] as int < 128
    ensures ScopedRoleNames(name, sha256).example == "bc_example_" + slug + "_" + hex
    ensures ScopedRoleNames(name, sha256).dispatcher == "bc_dispatch_" + slug + "_" + hex
    ensures ScopedRoleNames(name, sha256).readiness == "bc_ready_" + slug + "_" + hex
    ensures |slug| == (if |name| <= 12 then |name| else 12) && forall i | 0 <= i < |slug| :: slug[i] == SlugLetter(name[i])
    ensures |hex| == 32 && forall i | 0 <= i < 16 ::
              && hex[2 * i] == "0123456789abcdef"[sha256(name)[i] as int / 16]
              && hex[2 * i + 1] == "0123456789abcdef"[sha256(name)[i] as int % 16]
  {
    slug, hex := Slug(name), Fingerprint(sha256(name));
    AsciiSlug(name, 12);
    forall i | 0 <= i < 16
      ensures hex[2 * i] == "0123456789abcdef"[sha256(name)[i] as int / 16]
      ensures hex[2 * i + 1] == "0123456789abcdef"[sha256(name)[i] as int % 16]
    {
      LowerHexExactly(sha256(name)[..16], i);
    }
    NamesJoin("bc_example_", slug, hex);
    NamesJoin("bc_dispatch_", slug, hex);
    NamesJoin("bc_ready_", slug, hex);
  }

  lemma NamesJoin(prefix: string, slug: string, hex: string)
    ensures prefix + (slug + "_" + hex) == prefix + slug + "_" + hex
  {
  }

  lemma WordsJoin(a: string, b: string)
    requires IsWord(a) && IsWord(b)
    ensures IsWord(a + b)
  {
  }

  /** For any database name: three valid, distinct role names that fit PostgreSQL's 63 characters. */
  lemma ScopedRolesAreUsable(name: string, sha256: string -> Digest)
    ensures var r := ScopedRoleNames(name, sha256);
      && QuotedRole(r.example).Some? && QuotedRole(r.dispatcher).Some? && QuotedRole(r.readiness).Some?
      && r.example != r.dispatcher && r.example != r.readiness && r.dispatcher != r.readiness
      && |r.example| <= 57 && |r.dispatcher| <= 57 && |r.readiness| <= 57
      && r.example != ADMIN && r.dispatcher != ADMIN && r.readiness != ADMIN
  {
    var r, suffix := ScopedRoleNames(name, sha256), Slug(name) + "_" + Fingerprint(sha256(name));
    WordsJoin(Slug(name), "_");
    WordsJoin(Slug(name) + "_", Fingerprint(sha256(name)));
    WordsJoin("bc_example_", suffix);
    WordsJoin("bc_dispatch_", suffix);
    WordsJoin("bc_ready_", suffix);
    assert r.example[3] == 'e' && r.dispatcher[3] == 'd' && r.readiness[3] == 'r' && ADMIN[3] == 't';
  }

  lemma {:induction false} LowerHexInjective(a: string, b: string)
    requires IsBytes(a) && IsBytes(b) && |a| == |b| && LowerHex(a) == LowerHex(b)
    ensures a == b
  {
    if a != "" {
      var x, y := LowerHex(a), LowerHex(b);
      assert x[2..] == LowerHex(a[1..]) && y[2..] == LowerHex(b[1..]);
      assert x[0] == y[0] && x[1] == y[1];
      LowerHexDigitInjective(a[0] as int / 16, b[0] as int / 16);
      LowerHexDigitInjective(a[0] as int % 16, b[0] as int % 16);
      LowerHexInjective(a[1..], b[1..]);
      assert a == [a[0]] + a[1..] && b == [b[0]] + b[1..];
    }
  }

  lemma LowerHexDigitInjective(m: int, n: int)
    requires 0 <= m < 16 && 0 <= n < 16 && LowerHexDigit(m) == LowerHexDigit(n)
    ensures m == n
  {
  }

  /** Two databases share a role only if the first half of their digests collides. */
  lemma SharedRoleMeansCollision(a: string, b: string, sha256: string -> Digest)
    requires ScopedRoleNames(a, sha256).example == ScopedRoleNames(b, sha256).example
    ensures sha256(a)[..16] == sha256(b)[..16]
  {
    var x, y := ScopedRoleNames(a, sha256).example, ScopedRoleNames(b, sha256).example;
    assert x[|x| - 32..] == Fingerprint(sha256(a));
    assert y[|y| - 32..] == Fingerprint(sha256(b));
    LowerHexInjective(sha256(a)[..16], sha256(b)[..16]);
  }

  // -------------------------------------------------------------- local deployments

  predicate ValidInstallation(id: string) {
    && id != "" && |id| <= 40
    && forall i | 0 <= i < |id| :: IsLower(id[i]) || IsDigit(id[i]) || id[i] == '-'
  }

  predicate ValidDatabase(name: string) {
    && name != "" && |name| <= 63
    && (forall i | 0 <= i < |name| :: IsLower(name[i]) || IsDigit(name[i]) || name[i] == '_')
    && IsLower(name[0])
  }

  predicate ValidLocalDeployment(local: LocalDeployment) {
    ValidInstallation(local.installationId) && ValidDatabase(local.databaseName) && local.httpPort != 0
  }

  /** The accepted deployments by character ranges. */
  lemma DeploymentAcceptedExactly(local: LocalDeployment)
    ensures ValidLocalDeployment(local) <==>
            && 1 <= |local.installationId| <= 40 && 1 <= |local.databaseName| <= 63 && local.httpPort != 0
            && (forall i | 0 <= i < |local.installationId| :: var c := local.installationId[i];
                  'a' <= c <= 'z' || '0' <= c <= '9' || c == '-')
            && 'a' <= local.databaseName[0] <= 'z'
            && (forall i | 0 <= i < |local.databaseName| :: var c := local.databaseName[i];
                  'a' <= c <= 'z' || '0' <= c <= '9' || c == '_')
  {
  }

  datatype Secrets = Secrets(operations: string, example: string, dispatcher: string, readiness: string)

  /** Resolved secrets are non-empty strings. */
  predicate Resolved(s: Secrets) {
    forall p | p in [s.operations, s.example, s.dispatcher, s.readiness] :: p != "" && IsBytes(p) && ValidUtf8(p)
  }

  /**
   * For every validated deployment the three URLs the reconciler hands to the
   * migration command are accepted there, with the role that command derives
   * from the operations URL itself and with the password that was configured.
   */
  lemma ReconcilerAndMigratorAgree(local: LocalDeployment, secrets: Secrets, sha256: string -> Digest,
                                   operationsUrl: string, exampleUrl: string, dispatcherUrl: string, readinessUrl: string)
    requires ValidLocalDeployment(local) && Resolved(secrets)
    requires var db, roles := local.databaseName, ScopedRoleNames(local.databaseName, sha256);
      && operationsUrl == DatabaseUrl("postgres", secrets.operations, "postgres", db)
      && exampleUrl == DatabaseUrl(roles.example, secrets.example, "postgres", db)
      && dispatcherUrl == DatabaseUrl(roles.dispatcher, secrets.dispatcher, "postgres", db)
      && readinessUrl == DatabaseUrl(roles.readiness, secrets.readiness, "postgres", db)
    ensures ParseUrl(operationsUrl).Some?
    ensures var roles := ScopedRoleNames(DatabaseName(ParseUrl(operationsUrl).value), sha256);
      && roles == ScopedRoleNames(local.databaseName, sha256)
      && ParseIdentity(exampleUrl, operationsUrl, roles.example) == Ok(Identity(roles.example, secrets.example))
      && ParseIdentity(dispatcherUrl, operationsUrl, roles.dispatcher) == Ok(Identity(roles.dispatcher, secrets.dispatcher))
      && ParseIdentity(readinessUrl, operationsUrl, roles.readiness) == Ok(Identity(roles.readiness, secrets.readiness))
  {
    var db, roles := local.databaseName, ScopedRoleNames(local.databaseName, sha256);
    ScopedRolesAreUsable(db, sha256);
    DatabaseNameRecovered(operationsUrl, secrets.operations, HOST, db);
    AcceptedAsBuilt(exampleUrl, roles.example, secrets.example, db, operationsUrl, secrets.operations);
    AcceptedAsBuilt(dispatcherUrl, roles.dispatcher, secrets.dispatcher, db, operationsUrl, secrets.operations);
    AcceptedAsBuilt(readinessUrl, roles.readiness, secrets.readiness, db, operationsUrl, secrets.operations);
  }

  lemma AcceptedAsBuilt(url: string, role: string, password: string, database: string,
                        operationsUrl: string, operationsPassword: string)
    requires role != "" && role != ADMIN && password != "" && ValidUtf8(password)
    requires IsBuilt(url, role, password, HOST, database)
    requires IsBuilt(operationsUrl, ADMIN, operationsPassword, HOST, database)
    ensures ParseIdentity(url, operationsUrl, role) == Ok(Identity(role, password))
  {
    BuiltUrlsAreJudgedExactly(url, role, password, HOST, database,
      operationsUrl, ADMIN, operationsPassword, HOST, database, role);
  }
}
