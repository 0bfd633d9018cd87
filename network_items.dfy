/** The network items the scanner discovers: the URL a host is addressed by,
    the host record (core/smb4khost.cpp), and the workgroup and share values
    the registry keeps alongside hosts. */
module NetworkItems {
  import opened Common
  import opened Text

  // ---------------------------------------------------------------------
  // URLs
  // ---------------------------------------------------------------------

  /** The parts of a QUrl the host record uses. `port` is -1 when unset. */
  datatype Url = Url(scheme: string, user: string, password: string,
                     host: string, port: int, path: string)

  /** The user, password, host and port between "//" and the path. */
  datatype Authority = Authority(user: string, password: string, host: string, port: int)

  const EmptyUrl: Url := Url("", "", "", "", -1, "")

  /** No delimiter inside a component, as QUrl keeps them (it percent-encodes
      delimiters inside components). */
  predicate WellFormed(u: Url) {
    ':' !in u.scheme && '/' !in u.scheme
    && ':' !in u.user && '/' !in u.user
    && '/' !in u.password
    && ':' !in u.host && '@' !in u.host && '/' !in u.host
    && u.port >= -1
    && (u.path == "" || u.path[0] == '/')
    && (HasAuthority(u) || !StartsWith(u.path, "//"))
  }

  /** Whether the URL has an authority at all. QUrl writes "//" only for a
      URL that has one, so the empty URL renders as "". */
  predicate HasAuthority(u: Url) {
    u.user != "" || u.password != "" || u.host != "" || u.port != -1
  }

  function SchemePart(scheme: string): string {
    if scheme == "" then "" else scheme + ":"
  }

  /** "user:password@", with the password dropped under RemovePassword. */
  function UserInfo(u: Url, removePassword: bool): string {
    var pw := if removePassword then "" else u.password;
    if u.user == "" && pw == "" then "" else Credentials(u.user, pw) + "@"
  }

  function Credentials(user: string, password: string): string {
    if password != "" then user + ":" + password else user
  }

  function PortPart(port: int): string {
    if port >= 0 then ":" + NatToString(port) else ""
  }

  function AuthorityText(u: Url, removePassword: bool): string {
    UserInfo(u, removePassword) + u.host + PortPart(u.port)
  }

  /** "//" and the authority, or nothing for a URL without an authority. */
  function AuthorityPart(u: Url, removePassword: bool): string {
    if HasAuthority(u) then "//" + AuthorityText(u, removePassword) else ""
  }

  /** QUrl::toString with the RemovePassword and RemovePath options. */
  function Render(u: Url, removePassword: bool, removePath: bool): string {
    SchemePart(u.scheme) + AuthorityPart(u, removePassword)
    + (if removePath then "" else u.path)
  }

  function ParsePort(t: string): (p: int)
    ensures p >= -1
  {
    if t != "" && AllDigits(t) then DigitsValue(t) else -1
  }

  function ParseAuthority(auth: string): Authority {
    var userInfo := BeforeLast(auth, '@');
    var hostPort := AfterLast(auth, '@');
    Authority(BeforeFirst(userInfo, ':'), AfterFirst(userInfo, ':'),
              BeforeFirst(hostPort, ':'),
              if ':' in hostPort then ParsePort(AfterFirst(hostPort, ':')) else -1)
  }

  /** Whether `s` opens with "scheme:" (a colon before any slash). */
  predicate HasScheme(s: string) {
    match CharIndex(s, ':')
    case None => false
    case Some(c) => match CharIndex(s, '/') case None => true case Some(sl) => c < sl
  }

  /** QUrl::setUrl on the forms a host UNC takes: "[scheme:]//authority[/path]",
      or "[scheme:]path" with no authority. */
  function ParseUrl(s: string): Url {
    ParseAfterScheme(SchemeOf(s), RestOf(s))
  }

  function SchemeOf(s: string): string {
    if HasScheme(s) then BeforeFirst(s, ':') else ""
  }

  function RestOf(s: string): string {
    if HasScheme(s) then AfterFirst(s, ':') else s
  }

  function ParseAfterScheme(scheme: string, rest: string): Url {
    if StartsWith(rest, "//") then
      var after := rest[2..];
      var a := ParseAuthority(BeforeFirst(after, '/'));
      Url(scheme, a.user, a.password, a.host, a.port, FromFirst(after, '/'))
    else
      Url(scheme, "", "", "", -1, rest)
  }

  lemma DigitsHaveNoDelimiter(s: string, c: char)
    requires AllDigits(s) && !IsDigit(c)
    ensures c !in s
  {
  }

  lemma AuthorityHasNoSlash(u: Url, removePassword: bool)
    requires WellFormed(u)
    ensures '/' !in AuthorityText(u, removePassword)
  {
    if u.port >= 0 {
      DigitsHaveNoDelimiter(NatToString(u.port), '/');
    }
  }

  lemma NoSchemeBeforeSlashes(rest: string)
    requires StartsWith(rest, "//")
    ensures !HasScheme(rest)
  {
    assert rest[0] == '/';
  }

  /** A scheme followed by ":" and a text that is empty or starts with a
      slash is read as the scheme. */
  lemma SchemeBeforeSlashes(scheme: string, rest: string)
    requires scheme != "" && ':' !in scheme && '/' !in scheme
    requires rest == "" || rest[0] == '/'
    ensures HasScheme(scheme + ":" + rest)
    ensures BeforeFirst(scheme + ":" + rest, ':') == scheme
    ensures AfterFirst(scheme + ":" + rest, ':') == rest
  {
    var s := scheme + ":" + rest;
    assert s == scheme + [':'] + rest;
    SplitFirst(scheme, ':', rest);
    CharIndexAt(scheme, ':', rest);
    assert '/' !in scheme + ":";
    if rest != "" {
      assert rest == ['/'] + rest[1..];
      assert s == (scheme + ":") + ['/'] + rest[1..];
      CharIndexAt(scheme + ":", '/', rest[1..]);
    } else {
      assert s == scheme + ":";
    }
  }

  lemma ParseAfterSlashes(scheme: string, auth: string, path: string)
    requires '/' !in auth
    requires path == "" || path[0] == '/'
    ensures ParseAfterScheme(scheme, "//" + auth + path)
         == var a := ParseAuthority(auth); Url(scheme, a.user, a.password, a.host, a.port, path)
  {
    var rest := "//" + auth + path;
    assert StartsWith(rest, "//");
    var after := rest[2..];
    assert after == auth + path;
    if path == "" {
      assert after == auth;
      SplitNone(auth, '/');
    } else {
      assert after == auth + ['/'] + path[1..];
      SplitFirst(auth, '/', path[1..]);
      assert [path[0]] + path[1..] == path;
    }
    assert BeforeFirst(after, '/') == auth;
    assert FromFirst(after, '/') == path;
  }

  /** The parse of "scheme://authority/path" splits it back into its parts. */
  lemma ParseWithAuthority(scheme: string, auth: string, path: string)
    requires ':' !in scheme && '/' !in scheme && '/' !in auth
    requires path == "" || path[0] == '/'
    ensures ParseUrl(SchemePart(scheme) + "//" + auth + path)
         == var a := ParseAuthority(auth); Url(scheme, a.user, a.password, a.host, a.port, path)
  {
    var rest := "//" + auth + path;
    var s := SchemePart(scheme) + "//" + auth + path;
    assert s == SchemePart(scheme) + rest;
    assert StartsWith(rest, "//");
    if scheme == "" {
      NoSchemeBeforeSlashes(rest);
      assert s == rest;
    } else {
      SchemeBeforeSlashes(scheme, rest);
    }
    assert SchemeOf(s) == scheme && RestOf(s) == rest;
    ParseAfterSlashes(scheme, auth, path);
  }

  /** The parse of "scheme:path", where the path does not open with "//",
      is a URL without an authority. */
  lemma ParseWithoutAuthority(scheme: string, path: string)
    requires ':' !in scheme && '/' !in scheme
    requires path == "" || path[0] == '/'
    requires !StartsWith(path, "//")
    ensures ParseUrl(SchemePart(scheme) + path) == Url(scheme, "", "", "", -1, path)
  {
    var s := SchemePart(scheme) + path;
    if scheme == "" {
      assert s == path;
      if path != "" {
        assert CharIndex(path, '/') == Some(0);
      }
    } else {
      SchemeBeforeSlashes(scheme, path);
    }
    assert SchemeOf(s) == scheme && RestOf(s) == path;
  }

  lemma ParseCredentials(u: Url)
    requires WellFormed(u)
    ensures BeforeFirst(Credentials(u.user, u.password), ':') == u.user
    ensures AfterFirst(Credentials(u.user, u.password), ':') == u.password
  {
    if u.password != "" {
      assert Credentials(u.user, u.password) == u.user + [':'] + u.password;
      SplitFirst(u.user, ':', u.password);
    } else {
      assert u.user + "" == u.user;
      SplitNone(u.user, ':');
    }
  }

  lemma ParseHostPort(u: Url)
    requires WellFormed(u)
    ensures var hp := u.host + PortPart(u.port);
      BeforeFirst(hp, ':') == u.host
      && (if ':' in hp then ParsePort(AfterFirst(hp, ':')) else -1) == u.port
      && '@' !in hp
  {
    var hp := u.host + PortPart(u.port);
    if u.port >= 0 {
      var digits := NatToString(u.port);
      DigitsHaveNoDelimiter(digits, '@');
      assert hp == u.host + [':'] + digits;
      SplitFirst(u.host, ':', digits);
      DigitsValueOfNatToString(u.port);
    } else {
      assert hp == u.host;
    }
  }

  /** The authority text of a well-formed URL parses back to its parts. */
  lemma ParseAuthorityText(u: Url)
    requires WellFormed(u)
    ensures ParseAuthority(AuthorityText(u, false)) == Authority(u.user, u.password, u.host, u.port)
  {
    ParseHostPort(u);
    if UserInfo(u, false) == "" {
      ParseAuthorityNoUser(u);
    } else {
      ParseAuthorityUser(u);
      ParseCredentials(u);
    }
  }

  lemma ParseAuthorityNoUser(u: Url)
    requires WellFormed(u) && UserInfo(u, false) == ""
    ensures var hp := u.host + PortPart(u.port);
      BeforeLast(AuthorityText(u, false), '@') == "" && AfterLast(AuthorityText(u, false), '@') == hp
    ensures u.user == "" && u.password == ""
    ensures BeforeFirst("", ':') == "" && AfterFirst("", ':') == ""
  {
    var hp := u.host + PortPart(u.port);
    ParseHostPort(u);
    assert AuthorityText(u, false) == hp;
    SplitNone(hp, '@');
    SplitNone("", ':');
  }

  lemma ParseAuthorityUser(u: Url)
    requires UserInfo(u, false) != "" && '@' !in u.host + PortPart(u.port)
    ensures var hp := u.host + PortPart(u.port);
      BeforeLast(AuthorityText(u, false), '@') == Credentials(u.user, u.password)
      && AfterLast(AuthorityText(u, false), '@') == hp
  {
    var hp := u.host + PortPart(u.port);
    var x := Credentials(u.user, u.password);
    assert AuthorityText(u, false) == x + ['@'] + hp;
    SplitLast(x, '@', hp);
  }

  /** Rendering a well-formed URL in full and parsing it gives it back. */
  lemma ParseRender(u: Url)
    requires WellFormed(u)
    ensures ParseUrl(Render(u, false, false)) == u
  {
    if HasAuthority(u) {
      ParseRenderWithAuthority(u);
    } else {
      assert Render(u, false, false) == SchemePart(u.scheme) + u.path;
      ParseWithoutAuthority(u.scheme, u.path);
    }
  }

  lemma ParseRenderWithAuthority(u: Url)
    requires WellFormed(u) && HasAuthority(u)
    ensures ParseUrl(Render(u, false, false)) == u
  {
    var a := AuthorityText(u, false);
    AuthorityHasNoSlash(u, false);
    assert Render(u, false, false) == SchemePart(u.scheme) + "//" + a + u.path;
    ParseWithAuthority(u.scheme, a, u.path);
    ParseAuthorityText(u);
  }

  /** Every component of a parsed authority is free of the delimiters that
      end it. */
  lemma ParseAuthorityWellFormed(auth: string)
    requires '/' !in auth
    ensures var a := ParseAuthority(auth);
      WellFormed(Url("", a.user, a.password, a.host, a.port, ""))
  {
    var userInfo := BeforeLast(auth, '@');
    var hostPort := AfterLast(auth, '@');
    assert '/' !in userInfo && '/' !in hostPort;
    assert '@' !in hostPort;
    assert ':' !in BeforeFirst(userInfo, ':');
    assert ':' !in BeforeFirst(hostPort, ':');
  }

  // ---------------------------------------------------------------------
  // Hosts
  // ---------------------------------------------------------------------

  datatype Protocol = Automatic | RPC | RAP | ADS

  /** Smb4KHost. */
  datatype Host = Host(url: Url, workgroup: string, ip: string, comment: string,
                       serverString: string, osString: string,
                       infoChecked: bool, ipChecked: bool, isMaster: bool,
                       protocol: Protocol)

  /** Smb4KHost(): every field empty or false, protocol Automatic. */
  const DefaultHost: Host := Host(EmptyUrl, "", "", "", "", "", false, false, false, Automatic)

  function WithSmbScheme(u: Url): Url {
    if u.scheme == "" then u.(scheme := "smb") else u
  }

  /** Smb4KHost(name): the default host at "smb://name". */
  function NamedHost(name: string): Host {
    DefaultHost.(url := EmptyUrl.(host := name, scheme := "smb"))
  }

  /** hostName(): the host part of the URL in upper case. */
  function HostName(h: Host): string {
    ToUpper(h.url.host)
  }

  function HasIP(h: Host): bool {
    h.ip != ""
  }

  function WithHostName(h: Host, name: string): Host {
    h.(url := WithSmbScheme(h.url.(host := name)))
  }

  /** The guard of setUNC: a string is refused only when it neither starts
      with "//" nor with "smb:" and does not hold exactly two slashes. */
  predicate UncAccepted(unc: string) {
    StartsWith(unc, "//") || StartsWith(unc, "smb:") || CountChar(unc, '/') == 2
  }

  function WithUNC(h: Host, unc: string): Host {
    if UncAccepted(unc) then h.(url := WithSmbScheme(ParseUrl(unc))) else h
  }

  /** unc(): the URL without its path, with "//host" replaced by
      "//HOSTNAME". */
  function Unc(h: Host, removePassword: bool): string {
    ReplaceAll(Render(h.url, removePassword, true), "//" + h.url.host, "//" + HostName(h))
  }

  /** The copy constructor: every field copied, then the URL set from the
      original's unc(). */
  function CopyHost(h: Host): Host {
    WithUNC(h.(url := EmptyUrl), Unc(h, false))
  }

  /** ipIsValid: the clear() in its body acts on a temporary, so the
      argument is handed back as it is. */
  function IpIsValid(ip: string): string {
    ip
  }

  function WithIP(h: Host, ip: string): Host {
    h.(ip := IpIsValid(ip), ipChecked := true)
  }

  function WithInfo(h: Host, serverString: string, osString: string): Host {
    h.(serverString := serverString, osString := osString, infoChecked := true)
  }

  function WithoutInfo(h: Host): Host {
    h.(infoChecked := false, serverString := "", osString := "")
  }

  predicate IsEmpty(h: Host) {
    h.url == EmptyUrl && h.workgroup == "" && h.ip == "" && h.comment == ""
    && h.serverString == "" && h.osString == "" && h.protocol == Automatic
  }

  /** equals(): this URL without password against the other's unc() without
      password, then the text fields and the protocol. */
  predicate Equals(a: Host, b: Host) {
    Render(a.url, true, false) == Unc(b, true)
    && a.workgroup == b.workgroup && a.ip == b.ip && a.comment == b.comment
    && a.serverString == b.serverString && a.osString == b.osString
    && a.protocol == b.protocol
  }

  /** The flags equals() and isEmpty() do not look at, cleared. */
  function WithoutFlags(h: Host): Host {
    h.(infoChecked := false, ipChecked := false, isMaster := false)
  }

  lemma IsEmptyIffDefault(h: Host)
    ensures IsEmpty(h) <==> WithoutFlags(h) == DefaultHost
    ensures IsEmpty(DefaultHost)
  {
  }

  lemma NamedHostNotEmpty(name: string)
    ensures !IsEmpty(NamedHost(name))
    ensures HostName(NamedHost(name)) == ToUpper(name)
  {
    assert NamedHost(name).url.scheme != "";
  }

  lemma EqualsIgnoresFlags(a: Host, b: Host)
    ensures Equals(a, b) <==> Equals(WithoutFlags(a), WithoutFlags(b))
  {
  }

  /** setIP always marks the address as checked and keeps what it was given,
      and a second call overrides the first. */
  lemma SetIPStoresAsGiven(h: Host, ip: string, ip2: string)
    ensures WithIP(h, ip).ipChecked && WithIP(h, ip).ip == ip
    ensures HasIP(WithIP(h, ip)) <==> ip != ""
    ensures WithIP(WithIP(h, ip), ip2) == WithIP(h, ip2)
    ensures WithoutFlags(WithIP(h, ip)) == WithoutFlags(h.(ip := ip))
  {
  }

  /** resetInfo undoes setInfo, and setInfo does not depend on what an
      earlier resetInfo cleared. */
  lemma SetInfoWithoutInfo(h: Host, s: string, o: string)
    ensures WithInfo(h, s, o).infoChecked && !WithoutInfo(h).infoChecked
    ensures WithoutInfo(WithInfo(h, s, o)) == WithoutInfo(h)
    ensures WithInfo(WithoutInfo(h), s, o) == WithInfo(h, s, o)
    ensures WithoutInfo(WithoutInfo(h)) == WithoutInfo(h)
  {
  }

  /** A refused UNC leaves the host as it was; an accepted one replaces only
      the URL. */
  lemma SetUNCGuard(h: Host, unc: string)
    ensures !UncAccepted(unc) ==> WithUNC(h, unc) == h
    ensures WithUNC(h, unc).(url := h.url) == h
  {
  }

  lemma StartsWithConcat(p: string, r: string)
    ensures StartsWith(p + r, p)
  {
    assert (p + r)[..|p|] == p;
  }

  lemma SlashCount(a: string, b: string)
    requires '/' !in a && '/' !in b
    ensures CountChar(a + "//" + b, '/') == 2
  {
    assert multiset(a)['/'] == 0 && multiset(b)['/'] == 0;
    assert multiset(a + "//" + b) == multiset(a) + multiset("//") + multiset(b);
  }

  /** The setUNC guard lets a rendered URL with an authority through
      whenever the scheme is absent or "smb" or the path holds no slash.
      Without an authority only an "smb" scheme passes: the text is then
      the scheme part alone, and "" (the empty URL) is refused. */
  lemma UncAcceptedRender(u: Url, removePassword: bool, removePath: bool)
    requires WellFormed(u)
    requires u.scheme == "" || u.scheme == "smb" || removePath || '/' !in u.path
    ensures HasAuthority(u) || u.scheme == "smb" ==> UncAccepted(Render(u, removePassword, removePath))
    ensures !HasAuthority(u) && u.scheme != "smb" && (removePath || u.path == "") ==>
              !UncAccepted(Render(u, removePassword, removePath))
  {
    var p := if removePath then "" else u.path;
    var s := Render(u, removePassword, removePath);
    if HasAuthority(u) {
      AcceptedWithAuthority(u, removePassword, removePath);
    } else if u.scheme == "smb" {
      assert s == "smb:" + p;
      StartsWithConcat("smb:", p);
    } else if removePath || u.path == "" {
      assert s == SchemePart(u.scheme);
      SchemeOnlyRefused(u.scheme);
    }
  }

  lemma AcceptedWithAuthority(u: Url, removePassword: bool, removePath: bool)
    requires WellFormed(u) && HasAuthority(u)
    requires u.scheme == "" || u.scheme == "smb" || removePath || '/' !in u.path
    ensures UncAccepted(Render(u, removePassword, removePath))
  {
    var p := if removePath then "" else u.path;
    RenderWithAuthority(u, removePassword, removePath);
    AuthorityHasNoSlash(u, removePassword);
    SlashedAccepted(u.scheme, AuthorityText(u, removePassword) + p);
  }

  /** "scheme://x" passes the guard when the scheme is absent or "smb", or
      no further slash follows. */
  lemma SlashedAccepted(scheme: string, x: string)
    requires ':' !in scheme && '/' !in scheme
    requires scheme == "" || scheme == "smb" || '/' !in x
    ensures UncAccepted(SchemePart(scheme) + "//" + x)
  {
    var s := SchemePart(scheme) + "//" + x;
    if scheme == "" {
      assert s == "//" + x;
      StartsWithConcat("//", x);
    } else if scheme == "smb" {
      assert s == "smb:" + ("//" + x);
      StartsWithConcat("smb:", "//" + x);
    } else {
      SlashCount(SchemePart(scheme), x);
    }
  }

  lemma RenderWithAuthority(u: Url, removePassword: bool, removePath: bool)
    requires HasAuthority(u)
    ensures Render(u, removePassword, removePath) ==
              SchemePart(u.scheme) + "//" + (AuthorityText(u, removePassword) + if removePath then "" else u.path)
  {
  }

  /** The scheme part alone passes the guard only for "smb". */
  lemma SchemeOnlyRefused(scheme: string)
    requires ':' !in scheme && '/' !in scheme && scheme != "smb"
    ensures !UncAccepted(SchemePart(scheme))
  {
    var t := SchemePart(scheme);
    assert '/' !in t;
    assert multiset(t)['/'] == 0;
    if scheme != "" {
      assert t == scheme + [':'];
      assert forall i :: 0 <= i < |scheme| ==> t[i] != ':';
      assert |t| >= 4 ==> t[3] != ':' || t[..3] == scheme;
    }
  }

  /** Setting the UNC from a rendered well-formed URL restores that URL,
      with "smb" as the default scheme, whenever the guard lets the
      rendering through; a URL with neither authority, path nor "smb"
      scheme, the empty URL among them, leaves the host as it was. */
  lemma SetUNCOfRender(h: Host, u: Url)
    requires WellFormed(u)
    ensures UncAccepted(Render(u, false, false)) ==>
              WithUNC(h, Render(u, false, false)) == h.(url := WithSmbScheme(u))
    ensures !HasAuthority(u) && u.scheme != "smb" && u.path == "" ==>
              WithUNC(h, Render(u, false, false)) == h
  {
    ParseRender(u);
    if !HasAuthority(u) && u.scheme != "smb" && u.path == "" {
      UncAcceptedRender(u, false, false);
    }
  }

  /** In S + "//" + R, with no slash in S or R, replacing "//H" rewrites
      the host only where the authority R starts with H. */
  lemma ReplaceHostAfterSlashes(S: string, R: string, H: string, UH: string)
    requires '/' !in S && '/' !in R
    ensures ReplaceAll(S + "//" + R, "//" + H, "//" + UH)
         == S + "//" + (if StartsWith(R, H) then UH + R[|H|..] else R)
  {
    var f := "//" + H;
    var g := "//" + UH;
    assert S + "//" + R == S + ("//" + R);
    ReplaceAllSkip(S, "//" + R, f, g);
    var x := "//" + R;
    if StartsWith(R, H) {
      assert x[..|f|] == f;
      assert x[|f|..] == R[|H|..];
      ReplaceAllAbsent(R[|H|..], f, g);
    } else {
      SlashesKeepPrefix(R, H);
      assert !StartsWith(x, f);
      assert x == ['/'] + ("/" + R);
      var y := "/" + R;
      if |y| >= |f| {
        assert y[..|f|][1] == R[0];
      }
      assert y == ['/'] + R;
      ReplaceAllAbsent(R, f, g);
    }
  }

  /** "//" in front of both sides does not change whether one starts with the other. */
  lemma SlashesKeepPrefix(R: string, H: string)
    ensures StartsWith("//" + R, "//" + H) ==> StartsWith(R, H)
  {
    var x, f := "//" + R, "//" + H;
    if StartsWith(x, f) {
      forall k | 0 <= k < |H| ensures R[k] == H[k] {
        assert x[k + 2] == x[..|f|][k + 2] == f[k + 2];
      }
      assert R[..|H|] == H;
    }
  }

  /** The authority unc() produces: the host name upper-cased where the
      authority starts with the host. */
  function UncAuthority(u: Url, removePassword: bool): string {
    var r := AuthorityText(u, removePassword);
    if StartsWith(r, u.host) then ToUpper(u.host) + r[|u.host|..] else r
  }

  lemma UncShape(h: Host, removePassword: bool)
    requires WellFormed(h.url)
    ensures Unc(h, removePassword) == SchemePart(h.url.scheme)
              + (if HasAuthority(h.url) then "//" + UncAuthority(h.url, removePassword) else "")
    ensures '/' !in UncAuthority(h.url, removePassword)
  {
    var u := h.url;
    UncAuthorityNoSlash(u, removePassword);
    if HasAuthority(u) {
      UncShapeWithAuthority(h, removePassword);
    } else {
      assert Render(u, removePassword, true) == SchemePart(u.scheme);
      ReplaceAllAbsent(SchemePart(u.scheme), "//" + u.host, "//" + HostName(h));
    }
  }

  lemma UncAuthorityNoSlash(u: Url, removePassword: bool)
    requires WellFormed(u)
    ensures '/' !in UncAuthority(u, removePassword)
  {
    AuthorityHasNoSlash(u, removePassword);
    ToUpperKeepsNonLetter(u.host, '/');
  }

  lemma UncShapeWithAuthority(h: Host, removePassword: bool)
    requires WellFormed(h.url) && HasAuthority(h.url)
    ensures Unc(h, removePassword) == SchemePart(h.url.scheme) + "//" + UncAuthority(h.url, removePassword)
  {
    var u := h.url;
    var r := AuthorityText(u, removePassword);
    AuthorityHasNoSlash(u, removePassword);
    RenderWithAuthority(u, removePassword, true);
    assert Render(u, removePassword, true) == SchemePart(u.scheme) + "//" + r;
    ReplaceHostAfterSlashes(SchemePart(u.scheme), r, u.host, HostName(h));
  }

  lemma ParseUncAuthorityUnchanged(u: Url)
    requires WellFormed(u) && !StartsWith(AuthorityText(u, false), u.host)
    ensures ParseAuthority(UncAuthority(u, false)) == Authority(u.user, u.password, u.host, u.port)
  {
    ParseAuthorityText(u);
  }

  lemma ParseUncAuthorityPlain(u: Url)
    requires WellFormed(u) && u.user == "" && u.password == ""
    ensures ParseAuthority(UncAuthority(u, false)) == Authority("", "", ToUpper(u.host), u.port)
  {
    var v := u.(host := ToUpper(u.host));
    ToUpperKeepsNonLetter(u.host, ':');
    ToUpperKeepsNonLetter(u.host, '@');
    ToUpperKeepsNonLetter(u.host, '/');
    var r := AuthorityText(u, false);
    assert r == u.host + PortPart(u.port);
    assert StartsWith(r, u.host);
    assert r[|u.host|..] == PortPart(u.port);
    assert UncAuthority(u, false) == AuthorityText(v, false);
    ParseAuthorityText(v);
  }

  lemma ParseUncAuthorityWithUser(u: Url)
    requires WellFormed(u) && UserInfo(u, false) != "" && StartsWith(AuthorityText(u, false), u.host)
    ensures ParseAuthority(UncAuthority(u, false)).host == u.host
    ensures ParseAuthority(UncAuthority(u, false)).port == u.port
  {
    ParseHostPort(u);
    UncAuthorityWithUser(u);
  }

  /** With user information, unc() changes only what comes before the last
      '@'. */
  lemma UncAuthorityWithUser(u: Url)
    requires UserInfo(u, false) != "" && StartsWith(AuthorityText(u, false), u.host)
    requires '@' !in u.host && '@' !in u.host + PortPart(u.port)
    ensures AfterLast(UncAuthority(u, false), '@') == u.host + PortPart(u.port)
  {
    var hp := u.host + PortPart(u.port);
    var x := Credentials(u.user, u.password);
    assert AuthorityText(u, false) == x + ['@'] + hp;
    HostWithinUserInfo(u.host, x, '@', hp);
    assert UncAuthority(u, false) == (ToUpper(u.host) + x[|u.host|..]) + ['@'] + hp;
    SplitLast(ToUpper(u.host) + x[|u.host|..], '@', hp);
  }

  /** A prefix free of the delimiter ends before the delimiter. */
  lemma HostWithinUserInfo(h: string, x: string, c: char, rest: string)
    requires StartsWith(x + [c] + rest, h) && c !in h
    ensures |h| <= |x| && (x + [c] + rest)[|h|..] == x[|h|..] + [c] + rest
  {
    var r := x + [c] + rest;
    assert r[|x|] == c;
    assert forall k :: 0 <= k < |h| ==> h[k] == r[k];
  }

  /** How the authority of unc() parses: the host keeps its name up to case
      and the port is kept. */
  lemma ParseUncAuthority(u: Url)
    requires WellFormed(u)
    ensures var a := ParseAuthority(UncAuthority(u, false));
      ToUpper(a.host) == ToUpper(u.host) && a.port == u.port
    ensures u.user == "" && u.password == "" ==>
      ParseAuthority(UncAuthority(u, false)) == Authority("", "", ToUpper(u.host), u.port)
  {
    ToUpperIdempotent(u.host);
    if u.user == "" && u.password == "" {
      ParseUncAuthorityPlain(u);
    } else if !StartsWith(AuthorityText(u, false), u.host) {
      ParseUncAuthorityUnchanged(u);
    } else {
      ParseUncAuthorityWithUser(u);
    }
  }

  /** The URL of a copy is what parsing the original's unc() gives. A URL
      with neither authority nor "smb" scheme renders a unc() the guard
      refuses, so the copy keeps the empty URL it starts with. */
  lemma CopyHostUrl(h: Host)
    requires WellFormed(h.url)
    ensures var a := ParseAuthority(UncAuthority(h.url, false));
      HasAuthority(h.url) || h.url.scheme == "smb" ==>
        CopyHost(h).url == WithSmbScheme(Url(h.url.scheme, a.user, a.password, a.host, a.port, ""))
    ensures !HasAuthority(h.url) && h.url.scheme != "smb" ==> CopyHost(h).url == EmptyUrl
    ensures '/' !in UncAuthority(h.url, false)
  {
    UncShape(h, false);
    if HasAuthority(h.url) {
      CopyHostUrlWithAuthority(h);
    } else {
      var u := h.url;
      var s := Unc(h, false);
      assert s == SchemePart(u.scheme);
      if u.scheme == "smb" {
        StartsWithConcat("smb:", "");
        assert s == "smb:" + "";
        ParseWithoutAuthority("smb", "");
        assert SchemePart("smb") + "" == s;
        ParseAuthorityText(u);
        assert AuthorityText(u, false) == "" && UncAuthority(u, false) == "";
      } else {
        SchemeOnlyRefused(u.scheme);
      }
    }
  }

  lemma CopyHostUrlWithAuthority(h: Host)
    requires WellFormed(h.url) && HasAuthority(h.url)
    ensures var a := ParseAuthority(UncAuthority(h.url, false));
      CopyHost(h).url == WithSmbScheme(Url(h.url.scheme, a.user, a.password, a.host, a.port, ""))
  {
    var u := h.url;
    var r := UncAuthority(u, false);
    UncShapeWithAuthority(h, false);
    UncAuthorityNoSlash(u, false);
    var s := Unc(h, false);
    SlashedAccepted(u.scheme, r);
    assert s == SchemePart(u.scheme) + "//" + r + "";
    ParseWithAuthority(u.scheme, r, "");
  }

  /** The copy of an empty host, the default one among them, is that host:
      its unc() is "", which setUNC refuses. */
  lemma CopyEmptyHost(h: Host)
    requires IsEmpty(h)
    ensures Unc(h, false) == ""
    ensures CopyHost(h) == h && IsEmpty(CopyHost(h))
  {
    UncShape(h, false);
    CopyHostUrl(h);
    CopyHostKeepsFields(h);
  }

  /** A copy has the key of the original: its host name and workgroup. */
  lemma CopyHostKeepsKey(h: Host)
    requires WellFormed(h.url)
    ensures HostName(CopyHost(h)) == HostName(h) && CopyHost(h).workgroup == h.workgroup
  {
    CopyHostKeepsName(h);
    CopyHostKeepsFields(h);
  }

  /** The copy constructor keeps every field but the URL. */
  lemma CopyHostKeepsFields(h: Host)
    ensures CopyHost(h).(url := h.url) == h
  {
  }

  /** The copy constructor keeps the host name and the port of a
      well-formed URL and drops its path; it keeps the scheme (defaulting to
      "smb") unless the URL has neither authority nor "smb" scheme, in
      which case the copy's URL is empty. */
  lemma CopyHostKeepsName(h: Host)
    requires WellFormed(h.url)
    ensures HostName(CopyHost(h)) == HostName(h)
    ensures WellFormed(CopyHost(h).url)
    ensures CopyHost(h).url.port == h.url.port && CopyHost(h).url.path == ""
    ensures CopyHost(h).url.scheme ==
              if HasAuthority(h.url) || h.url.scheme == "smb" then WithSmbScheme(h.url).scheme else ""
    ensures h.url.user == "" && h.url.password == "" ==>
      CopyHost(h).url == if HasAuthority(h.url) || h.url.scheme == "smb"
                         then WithSmbScheme(h.url.(host := HostName(h), path := ""))
                         else EmptyUrl
  {
    var u := h.url;
    var auth := UncAuthority(u, false);
    var a := ParseAuthority(auth);
    CopyHostUrl(h);
    ParseUncAuthority(u);
    if HasAuthority(u) || u.scheme == "smb" {
      var v := Url(u.scheme, a.user, a.password, a.host, a.port, "");
      assert CopyHost(h).url == WithSmbScheme(v);
      ParseAuthorityWellFormed(auth);
      WellFormedWithScheme(a, u.scheme);
    }
  }

  /** A parsed authority under a well-formed scheme, with the "smb" default,
      makes a well-formed URL. */
  lemma WellFormedWithScheme(a: Authority, scheme: string)
    requires WellFormed(Url("", a.user, a.password, a.host, a.port, ""))
    requires ':' !in scheme && '/' !in scheme
    ensures WellFormed(WithSmbScheme(Url(scheme, a.user, a.password, a.host, a.port, "")))
  {
    assert !StartsWith("", "//");
  }

  /** Copying a host whose URL carries no user information a second time
      changes nothing more. */
  lemma CopyHostIdempotent(h: Host)
    requires WellFormed(h.url) && h.url.user == "" && h.url.password == ""
    ensures CopyHost(CopyHost(h)) == CopyHost(h)
  {
    CopyHostKeepsName(h);
    var c := CopyHost(h);
    CopyHostKeepsName(c);
    ToUpperIdempotent(h.url.host);
    CopyHostKeepsFields(h);
    CopyHostKeepsFields(c);
  }

  /** A host whose URL has no path and an upper-case host name is equal to
      itself under equals(). */
  lemma EqualsReflexiveWhenCanonical(h: Host)
    requires WellFormed(h.url) && h.url.path == "" && ToUpper(h.url.host) == h.url.host
    ensures Equals(h, h)
  {
    UncShape(h, true);
    var r := AuthorityText(h.url, true);
    if StartsWith(r, h.url.host) {
      assert h.url.host + r[|h.url.host|..] == r;
    }
    assert Render(h.url, true, false) == SchemePart(h.url.scheme) + AuthorityPart(h.url, true);
  }

  /** equals() sets this host's own URL, path and original case included,
      against the other host's unc(), which has neither: a host with a
      lower-case letter in its name is not equal to itself. */
  lemma EqualsNotReflexiveForLowerCase(h: Host)
    requires WellFormed(h.url) && h.url.user == "" && ToUpper(h.url.host) != h.url.host
    ensures !Equals(h, h)
  {
    OwnUrlDiffersFromUnc(h);
  }

  lemma OwnUrlDiffersFromUnc(h: Host)
    requires WellFormed(h.url) && h.url.user == "" && ToUpper(h.url.host) != h.url.host
    ensures Render(h.url, true, false) != Unc(h, true)
  {
    var u := h.url;
    PlainUncAndRender(h);
    DifferAfterPrefix(SchemePart(u.scheme) + "//", u.host, ToUpper(u.host), PortPart(u.port) + u.path, PortPart(u.port));
  }

  /** Without user information, unc() is the URL's text with the host
      upper-cased and the path dropped. */
  lemma PlainUncAndRender(h: Host)
    requires WellFormed(h.url) && h.url.user == "" && h.url.host != ""
    ensures var u := h.url;
      Unc(h, true) == SchemePart(u.scheme) + "//" + (ToUpper(u.host) + PortPart(u.port))
      && Render(u, true, false) == SchemePart(u.scheme) + "//" + (u.host + (PortPart(u.port) + u.path))
  {
    PlainUnc(h);
    PlainRender(h.url);
  }

  lemma PlainUnc(h: Host)
    requires WellFormed(h.url) && h.url.user == "" && h.url.host != ""
    ensures Unc(h, true) == SchemePart(h.url.scheme) + "//" + (ToUpper(h.url.host) + PortPart(h.url.port))
  {
    var u := h.url;
    var pp := PortPart(u.port);
    var r := AuthorityText(u, true);
    assert r == u.host + pp;
    assert UncAuthority(u, true) == ToUpper(u.host) + pp by {
      StartsWithConcat(u.host, pp);
      assert r[|u.host|..] == pp;
    }
    UncShapeWithAuthority(h, true);
  }

  lemma PlainRender(u: Url)
    requires u.user == "" && u.host != ""
    ensures Render(u, true, false) == SchemePart(u.scheme) + "//" + (u.host + (PortPart(u.port) + u.path))
  {
    var pp := PortPart(u.port);
    var r := AuthorityText(u, true);
    assert UserInfo(u, true) == "";
    assert r == u.host + pp;
    assert r + u.path == u.host + (pp + u.path);
    RenderWithAuthority(u, true, false);
  }

  /** Two texts that share a prefix and then differ in a segment of the
      same length differ. */
  lemma DifferAfterPrefix(p: string, a: string, b: string, ra: string, rb: string)
    requires |a| == |b| && a != b
    ensures p + (a + ra) != p + (b + rb)
  {
    assert (p + (a + ra))[|p|..|p| + |a|] == a;
    assert (p + (b + rb))[|p|..|p| + |a|] == b;
  }

  /** Smb4KHost as an object: the setters update its fields in place. */
  class HostObject {
    var url: Url
    var workgroup: string
    var ip: string
    var comment: string
    var serverString: string
    var osString: string
    var infoChecked: bool
    var ipChecked: bool
    var isMaster: bool
    var protocol: Protocol

    function Value(): Host
      reads this
    {
      Host(url, workgroup, ip, comment, serverString, osString,
           infoChecked, ipChecked, isMaster, protocol)
    }

    /** Smb4KHost() */
    constructor ()
      ensures Value() == DefaultHost
    {
      url := EmptyUrl;
      workgroup, ip, comment, serverString, osString := "", "", "", "", "";
      infoChecked, ipChecked, isMaster := false, false, false;
      protocol := Automatic;
    }

    /** Smb4KHost(name) */
    constructor Named(name: string)
      ensures Value() == NamedHost(name)
    {
      url := EmptyUrl.(host := name, scheme := "smb");
      workgroup, ip, comment, serverString, osString := "", "", "", "", "";
      infoChecked, ipChecked, isMaster := false, false, false;
      protocol := Automatic;
    }

    /** Smb4KHost(const Smb4KHost &) */
    constructor Copy(other: HostObject)
      ensures Value() == CopyHost(old(other.Value()))
    {
      url := EmptyUrl;
      workgroup, ip, comment := other.workgroup, other.ip, other.comment;
      serverString, osString := other.serverString, other.osString;
      infoChecked, ipChecked, isMaster := other.infoChecked, other.ipChecked, other.isMaster;
      protocol := other.protocol;
      new;
      SetUNC(Unc(other.Value(), false));
    }

    method SetHostName(name: string)
      modifies this
      ensures Value() == WithHostName(old(Value()), name)
    {
      url := url.(host := name);
      if url.scheme == "" {
        url := url.(scheme := "smb");
      }
    }

    method SetUNC(unc: string)
      modifies this
      ensures Value() == WithUNC(old(Value()), unc)
    {
      if !UncAccepted(unc) {
        return;
      }
      url := ParseUrl(unc);
      if url.scheme == "" {
        url := url.(scheme := "smb");
      }
    }

    method SetWorkgroupName(name: string)
      modifies this
      ensures Value() == old(Value()).(workgroup := name)
    {
      workgroup := name;
    }

    method SetIP(address: string)
      modifies this
      ensures Value() == WithIP(old(Value()), address)
    {
      ip := IpIsValid(address);
      ipChecked := true;
    }

    method SetComment(text: string)
      modifies this
      ensures Value() == old(Value()).(comment := text)
    {
      comment := text;
    }

    method SetInfo(server: string, os: string)
      modifies this
      ensures Value() == WithInfo(old(Value()), server, os)
    {
      serverString := server;
      osString := os;
      infoChecked := true;
    }

    method ResetInfo()
      modifies this
      ensures Value() == WithoutInfo(old(Value()))
    {
      infoChecked := false;
      serverString := "";
      osString := "";
    }

    method SetIsMasterBrowser(master: bool)
      modifies this
      ensures Value() == old(Value()).(isMaster := master)
    {
      isMaster := master;
    }

    method SetProtocol(p: Protocol)
      modifies this
      ensures Value() == old(Value()).(protocol := p)
    {
      protocol := p;
    }
  }

  // ---------------------------------------------------------------------
  // Workgroups and shares
  // ---------------------------------------------------------------------

  /** Smb4KWorkgroup: a name and its (possibly pseudo) master browser. */
  datatype Workgroup = Workgroup(name: string, masterName: string, masterIP: string,
                                 pseudoMaster: bool)

  function NewWorkgroup(name: string): Workgroup {
    Workgroup(name, "", "", false)
  }

  function HasMasterIP(w: Workgroup): bool {
    w.masterIP != ""
  }

  function WithMasterBrowser(w: Workgroup, name: string, ip: string, pseudo: bool): Workgroup {
    w.(masterName := name, masterIP := ip, pseudoMaster := pseudo)
  }

  /** Smb4KShare: a share of a host, with the mount data copied from a
      mounted instance of it. */
  datatype Share = Share(name: string, host: string, workgroup: string, isHomes: bool,
                         foreign: bool, mountPath: string, mounted: bool)

  /** The share's UNC, "//host/share". */
  function ShareUnc(s: Share): string {
    "//" + s.host + "/" + s.name
  }

  /** setMountData: the mount path and the mounted and foreign flags of `m`. */
  function WithMountData(s: Share, m: Share): Share {
    s.(mountPath := m.mountPath, mounted := m.mounted, foreign := m.foreign)
  }
}
