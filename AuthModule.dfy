/**
 * The scheduler client's authentication modules: the insecure module, which
 * attaches nothing, and HTTP Basic authentication, which reads credentials from a
 * netrc file and sets the `Authorization` header of each outgoing request.
 */
module AuthModule {
  import opened Wrappers
  import opened Text
  import Base64

  type Byte = Base64.Byte

  /** The exceptions the module's operations raise. */
  datatype AuthError =
    | UnicodeEncodeError   // a character outside Latin-1
    | TypeError            // joining something that is not bytes, or unpacking `None`
    | AttributeError(name: string)

  /** A credential as `_basic_auth_str` receives it: text, bytes, or `None`. */
  datatype Credential = Str(s: string) | Raw(b: seq<Byte>) | Null

  /** `s.encode('latin1')`: every character must be at most U+00FF. */
  function Latin1(s: string): (r: Result<seq<Byte>, AuthError>)
    ensures r.Success? <==> forall i :: 0 <= i < |s| ==> s[i] as int < 256
    ensures r.Failure? ==> r.error == UnicodeEncodeError
    ensures r.Success? ==> |r.value| == |s| && forall i :: 0 <= i < |s| ==> r.value[i] == s[i] as int
  {
    if s == [] then Success([])
    else if s[0] as int >= 256 then Failure(UnicodeEncodeError)
    else
      match Latin1(s[1..])
      case Failure(e) => Failure(e)
      case Success(rest) => Success([s[0] as int] + rest)
  }

  /** `b.decode('latin1')`. */
  function Latin1Text(b: seq<Byte>): (r: string)
    ensures |r| == |b|
  {
    seq(|b|, i requires 0 <= i < |b| => b[i] as char)
  }

  lemma Latin1RoundTrip(s: string)
    requires forall i :: 0 <= i < |s| ==> s[i] as int < 256
    ensures Latin1(s).Success? && Latin1Text(Latin1(s).value) == s
  {
  }

  predicate Encodable(v: Credential) {
    v.Str? ==> forall i :: 0 <= i < |v.s| ==> v.s[i] as int < 256
  }

  /** The octets a credential stands for, character code by character code. */
  function Octets(v: Credential): seq<Byte>
    requires Encodable(v) && !v.Null?
  {
    match v
    case Str(s) => seq(|s|, i requires 0 <= i < |s| => s[i] as int)
    case Raw(b) => b
  }

  /** The credential after `if isinstance(v, str): v = v.encode('latin1')`. */
  function EncodeCredential(v: Credential): (r: Result<Credential, AuthError>)
    ensures r.Failure? <==> !Encodable(v)
    ensures r.Failure? ==> r.error == UnicodeEncodeError
    ensures r.Success? ==> (r.value.Null? <==> v.Null?)
    ensures r.Success? && !v.Null? ==> r.value.Raw? && r.value.b == Octets(v)
  {
    match v
    case Str(s) =>
      (match Latin1(s)
       case Failure(e) => Failure(e)
       case Success(b) => Success(Raw(b)))
    case Raw(_) => Success(v)
    case Null => Success(v)
  }

  /** The header text for the joined octets decodes back to them. */
  lemma HeaderDecodes(joined: seq<Byte>)
    ensures var r := "Basic " + Strip(Base64.Encode(joined));
      StartsWith(r, "Basic ") && Base64.Decode(r[6..]) == Some(joined)
  {
    var e := Base64.Encode(joined);
    EncodeUnspaced(joined);
    Base64.DecodeEncode(joined);
    var r := "Basic " + e;
    assert r[..6] == "Basic ";
    assert r[6..] == e;
  }

  /** The Base64 text has no whitespace at its ends, so stripping keeps it. */
  lemma EncodeUnspaced(joined: seq<Byte>)
    ensures Strip(Base64.Encode(joined)) == Base64.Encode(joined)
  {
    var e := Base64.Encode(joined);
    Base64.EncodeAlphabet(joined);
    if e != [] {
      assert !IsSpace(e[0]) && !IsSpace(e[|e| - 1]);
      StripUnspaced(e);
    }
  }

  /**
   * `BasicAuth._basic_auth_str`: `"Basic "` followed by the Base64 form of the
   * Latin-1 user name, a colon and the Latin-1 password.
   */
  function BasicAuthStr(username: Credential, password: Credential): (r: Result<string, AuthError>)
    ensures r == Failure(UnicodeEncodeError) <==> !Encodable(username) || !Encodable(password)
    ensures r == Failure(TypeError) <==>
      Encodable(username) && Encodable(password) && (username.Null? || password.Null?)
    ensures r.Success? ==>
      StartsWith(r.value, "Basic ") &&
      Base64.Decode(r.value[6..]) == Some(Octets(username) + [':' as int] + Octets(password))
  {
    var u :- EncodeCredential(username);
    var p :- EncodeCredential(password);
    if u.Raw? && p.Raw? then
      var joined := u.b + [':' as int] + p.b;
      HeaderDecodes(joined);
      Success("Basic " + Strip(Base64.Encode(joined)))
    else Failure(TypeError)
  }

  /**
   * One netrc `machine` (or `default`) entry. A field the entry does not give
   * is `None`, as Python's `netrc` before 3.11 leaves `account` for the usual
   * `machine h login u password p` entry.
   */
  datatype NetrcEntry = NetrcEntry(login: string, account: Option<string>, password: Option<string>)

  /** A netrc field as the credential `_basic_auth_str` receives. */
  function Field(v: Option<string>): (r: Credential)
    ensures r.Null? <==> v.None?
    ensures v.Some? ==> r == Str(v.value)
  {
    if v.Some? then Str(v.value) else Null
  }

  /** A parsed netrc file; the `default` entry is stored under the key `"default"`. */
  datatype Netrc = Netrc(hosts: map<string, NetrcEntry>)

  /** `netrc.authenticators(host)`: the host's entry, else the default entry, else `None`. */
  function Authenticators(n: Netrc, host: Option<string>): (r: Option<NetrcEntry>)
    ensures host.Some? && host.value in n.hosts ==> r == Some(n.hosts[host.value])
    ensures (host.None? || host.value !in n.hosts) && "default" in n.hosts ==> r == Some(n.hosts["default"])
    ensures r.None? <==> (host.None? || host.value !in n.hosts) && "default" !in n.hosts
  {
    if host.Some? && host.value in n.hosts then Some(n.hosts[host.value])
    else if "default" in n.hosts then Some(n.hosts["default"])
    else None
  }

  /**
   * The `Authorization` value `BasicAuth.__call__` sets for a request to `host`:
   * built from the entry's account and password; unpacking a missing entry raises.
   */
  function AuthorizationFor(n: Netrc, host: Option<string>): (r: Result<string, AuthError>)
    ensures Authenticators(n, host).None? ==> r == Failure(TypeError)
    ensures Authenticators(n, host).Some? ==>
      var e := Authenticators(n, host).value;
      r == BasicAuthStr(Field(e.account), Field(e.password))
  {
    match Authenticators(n, host)
    case None => Failure(TypeError)
    case Some(e) => BasicAuthStr(Field(e.account), Field(e.password))
  }

  /**
   * An entry without an account (or without a password) never yields a header:
   * joining `None` raises a `TypeError`, unless encoding the other field fails first.
   */
  lemma MissingFieldRaises(n: Netrc, host: Option<string>)
    requires Authenticators(n, host).Some?
    requires var e := Authenticators(n, host).value; e.account.None? || e.password.None?
    ensures AuthorizationFor(n, host).Failure?
    ensures var e := Authenticators(n, host).value;
      Encodable(Field(e.account)) && Encodable(Field(e.password)) ==> AuthorizationFor(n, host) == Failure(TypeError)
  {
  }

  /** The header does not depend on the entry's `login` field, only on `account` and `password`. */
  lemma LoginIgnored(n: Netrc, host: string, login: string)
    requires host in n.hosts
    ensures
      var e := n.hosts[host];
      AuthorizationFor(Netrc(n.hosts[host := NetrcEntry(login, e.account, e.password)]), Some(host))
        == AuthorizationFor(n, Some(host))
  {
  }

  /** A credential pair of plain ASCII always yields a header. */
  lemma AsciiCredentialsAccepted(n: Netrc, host: Option<string>)
    requires Authenticators(n, host).Some?
    requires var e := Authenticators(n, host).value;
      e.account.Some? && e.password.Some? &&
      (forall i :: 0 <= i < |e.account.value| ==> e.account.value[i] as int < 128) &&
      (forall i :: 0 <= i < |e.password.value| ==> e.password.value[i] as int < 128)
    ensures AuthorizationFor(n, host).Success?
  {
  }

  const AuthorizationKey := "Authorization"

  /**
   * `headers[key] = value` on requests' case-insensitive header dictionary: an
   * entry whose key differs from `key` only in case is replaced, and the entry
   * keeps the spelling of `key`.
   */
  function SetHeader(headers: map<string, string>, key: string, value: string): (r: map<string, string>)
    ensures key in r && r[key] == value
    ensures forall k :: k in r && Lower(k) == Lower(key) ==> k == key
    ensures forall k :: k in r && k != key ==> k in headers && r[k] == headers[k]
    ensures forall k :: k in headers && Lower(k) != Lower(key) ==> k in r && r[k] == headers[k]
  {
    (map k | k in headers && Lower(k) != Lower(key) :: headers[k])[key := value]
  }

  /** An outgoing HTTP request; only its headers change. */
  class Request {
    const url: string
    var headers: map<string, string>

    constructor(url: string, headers: map<string, string>)
      ensures this.url == url && this.headers == headers
    {
      this.url := url;
      this.headers := headers;
    }
  }

  /** `BasicAuth`: the netrc file it was built from, already parsed. */
  class BasicAuth {
    const netrcFile: Option<string>
    const netrc: Netrc

    constructor(netrcFile: Option<string>, netrc: Netrc)
      ensures this.netrcFile == netrcFile && this.netrc == netrc
    {
      this.netrcFile := netrcFile;
      this.netrc := netrc;
    }

    /**
     * `__call__`: set `Authorization` and return the same request. `host` stands
     * for `urlparse(request.url).hostname`.
     */
    method Call(request: Request, host: Option<string>) returns (r: Result<Request, AuthError>)
      modifies request
      ensures AuthorizationFor(netrc, host).Success? ==>
        r == Success(request) &&
        request.headers == SetHeader(old(request.headers), AuthorizationKey, AuthorizationFor(netrc, host).value)
      ensures AuthorizationFor(netrc, host).Failure? ==>
        r == Failure(AuthorizationFor(netrc, host).error) && request.headers == old(request.headers)
    {
      var value := AuthorizationFor(netrc, host);
      if value.Failure? {
        return Failure(value.error);
      }
      request.headers := SetHeader(request.headers, AuthorizationKey, value.value);
      return Success(request);
    }
  }

  /** The two authentication modules. */
  datatype AuthModule = InsecureAuthModule | BasicAuthModule(netrcFile: Option<string>) {

    /** The `mechanism` property. */
    function Mechanism(): (r: string)
      ensures r == "UNAUTHENTICATED" <==> InsecureAuthModule?
      ensures r == "BASIC" <==> BasicAuthModule?
    {
      if InsecureAuthModule? then "UNAUTHENTICATED" else "BASIC"
    }

    /** The `failed_auth_message` property: the Basic module reads a field it never set. */
    function FailedAuthMessage(): (r: Result<string, AuthError>)
      ensures InsecureAuthModule? ==> r == Success("")
      ensures BasicAuthModule? ==> r == Failure(AttributeError("netrc_file"))
    {
      if InsecureAuthModule? then Success("") else Failure(AttributeError("netrc_file"))
    }

    /** The message the Basic module evidently means: the netrc file interpolated with `%s`. */
    function IntendedFailedAuthMessage(): (r: string)
      ensures InsecureAuthModule? ==> r == ""
      ensures BasicAuthModule? ==> StartsWith(r, "Communication with Aurora scheduler is ")
    {
      if InsecureAuthModule? then ""
      else
        var shown := if netrcFile.Some? then netrcFile.value else "None";
        "Communication with Aurora scheduler is " + shown + "."
    }
  }

  /** The exceptions `netrc()` raises while reading the file. */
  datatype LoadError = FileNotFoundError | NetrcParseError

  /**
   * `auth()`: `None` for the insecure module; otherwise a fresh `BasicAuth`
   * over the module's netrc file, read by `load` (`netrc()` or `netrc(file)`),
   * whose failure propagates.
   */
  method Auth(m: AuthModule, load: Option<string> -> Result<Netrc, LoadError>) returns (r: Result<Option<BasicAuth>, LoadError>)
    ensures m.InsecureAuthModule? ==> r == Success(None)
    ensures m.BasicAuthModule? && load(m.netrcFile).Failure? ==> r == Failure(load(m.netrcFile).error)
    ensures m.BasicAuthModule? && load(m.netrcFile).Success? ==>
      r.Success? && r.value.Some? && fresh(r.value.value) &&
      r.value.value.netrcFile == m.netrcFile && r.value.value.netrc == load(m.netrcFile).value
  {
    if m.InsecureAuthModule? {
      return Success(None);
    }
    var parsed := load(m.netrcFile);
    if parsed.Failure? {
      return Failure(parsed.error);
    }
    var b := new BasicAuth(m.netrcFile, parsed.value);
    return Success(Some(b));
  }

  /** The failed-auth message of the Basic module as written never yields a string; the intended one always does. */
  lemma FailedAuthMessageRaises(f: Option<string>)
    ensures BasicAuthModule(f).FailedAuthMessage().Failure?
    ensures BasicAuthModule(f).IntendedFailedAuthMessage()
      == "Communication with Aurora scheduler is " + (if f.Some? then f.value else "None") + "."
  {
  }
}
