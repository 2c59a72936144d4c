/** The identity and connection settings of the example agents: examples/echo_agent/internal/slimconfig. */
module SlimConfig {
  import opened Outcomes
  import opened Lists

  datatype Options = Options(
    identity: string,
    jwtKeyFile: string, jwtAlgorithm: string, jwtSubject: string, jwtIssuer: string, jwtAudience: string,
    jwtDuration: int,
    jwtVerifyKeyFile: string, jwtVerifyFormat: string, jwtVerifyIssuer: string,
    spireSocket: string, spireTargetSpiffeID: string, spireAudience: string,
    endpoint: string, tls: bool, tlsCAFile: string, tlsInsecureSkipVerify: bool, tlsCertFile: string,
    tlsKeyFile: string,
    nodeAuth: string, nodeTokenFile: string)

  datatype Rejection =
    | NoSigningKey | NoIssuer | BadAlgorithm | NoVerifyKey | BadKeyFormat
    | SharedSecretHasNoConfigs | UnknownIdentity
    | CertAndKeyBelongTogether | TlsOptionsNeedTls | NoTokenFile | UnknownNodeAuth

  datatype Built<+T> = Built(value: T) | Rejected(why: Rejection)

  datatype JwtAlgorithm = EdDsa | Es256 | Es384 | Rs256 | Rs384 | Rs512 | Ps256 | Ps384 | Ps512
  datatype JwtKeyFormat = Jwks | Jwk | Pem
  datatype JwtKey = JwtKey(algorithm: JwtAlgorithm, format: JwtKeyFormat, path: string)

  /** ClientJwtAuth, which signs, and JwtAuth, which verifies, have the same fields. */
  datatype Jwt = Jwt(key: JwtKey, audience: Option<seq<string>>, issuer: Option<string>, subject: Option<string>,
      duration: int)

  datatype Spire = Spire(socketPath: Option<string>, targetSpiffeId: Option<string>, audiences: seq<string>,
      trustDomains: seq<string>)

  datatype IdentityConfig = JwtIdentity(jwt: Jwt) | SpireIdentity(spire: Spire)

  datatype Pair<+A, +B> = Pair(provider: A, verifier: B)

  function AudienceOf(s: string): Option<seq<string>> {
    if Entries(s) == [] then None else Some(Entries(s))
  }

  function Optional(s: string): Option<string> {
    if s == "" then None else Some(s)
  }

  /** unicode.ToUpper, as far as it can produce one of the letters compared below: besides a to z,
      dotless i and long s have an ASCII capital. */
  function ToUpper(c: char): char {
    if 'a' <= c <= 'z' then 'A' + (c - 'a')
    else if c == '\U{131}' then 'I'
    else if c == '\U{17F}' then 'S'
    else c
  }

  /** unicode.ToLower, likewise: besides A to Z, dotted I and the Kelvin sign have an ASCII lower case. */
  function ToLower(c: char): char {
    if 'A' <= c <= 'Z' then 'a' + (c - 'A')
    else if c == '\U{130}' then 'i'
    else if c == '\U{212A}' then 'k'
    else c
  }

  function Upper(s: string): string { seq(|s|, i requires 0 <= i < |s| => ToUpper(s[i])) }

  function Lower(s: string): string { seq(|s|, i requires 0 <= i < |s| => ToLower(s[i])) }

  /** The switch of ParseJWTAlgorithm, on the name in capitals. */
  function AlgorithmNamed(u: string): Option<JwtAlgorithm> {
    if u == "EDDSA" || u == "ED25519" then Some(EdDsa)
    else if u == "ES256" then Some(Es256)
    else if u == "ES384" then Some(Es384)
    else if u == "RS256" then Some(Rs256)
    else if u == "RS384" then Some(Rs384)
    else if u == "RS512" then Some(Rs512)
    else if u == "PS256" then Some(Ps256)
    else if u == "PS384" then Some(Ps384)
    else if u == "PS512" then Some(Ps512)
    else None
  }

  function ParseJWTAlgorithm(s: string): Option<JwtAlgorithm> {
    AlgorithmNamed(Upper(s))
  }

  function ParseJWTKeyFormat(s: string): Option<JwtKeyFormat> {
    var l := Lower(s);
    if l == "jwks" then Some(Jwks)
    else if l == "jwk" then Some(Jwk)
    else if l == "pem" then Some(Pem)
    else None
  }

  // ---------- names, whatever their case ----------

  /** The two characters are equal, or one ASCII letter in both cases. */
  predicate Cased(c: char, n: char) {
    || c == n
    || ('A' <= n <= 'Z' && 'a' <= c <= 'z' && c - 'a' == n - 'A')
    || ('a' <= n <= 'z' && 'A' <= c <= 'Z' && c - 'A' == n - 'a')
  }

  /** s is the name in some mixture of cases. Where capitals are compared, long s and dotless i pass for S and I. */
  ghost predicate SameInCapitals(s: string, name: string) {
    && |s| == |name|
    && forall i :: 0 <= i < |s| ==>
         || Cased(s[i], name[i])
         || (s[i] == '\U{17F}' && Cased('S', name[i]))
         || (s[i] == '\U{131}' && Cased('I', name[i]))
  }

  /** Where small letters are compared, the Kelvin sign and dotted I pass for k and i. */
  ghost predicate SameInSmall(s: string, name: string) {
    && |s| == |name|
    && forall i :: 0 <= i < |s| ==>
         || Cased(s[i], name[i])
         || (s[i] == '\U{212A}' && Cased('k', name[i]))
         || (s[i] == '\U{130}' && Cased('i', name[i]))
  }

  predicate Ascii(s: string) { forall i :: 0 <= i < |s| ==> s[i] < '\U{80}' }

  lemma SameUpper(s: string, name: string)
    requires Ascii(name)
    ensures Upper(s) == Upper(name) <==> SameInCapitals(s, name)
  {
    if Upper(s) == Upper(name) {
      assert |s| == |Upper(s)| == |name|;
      forall i | 0 <= i < |s| ensures ToUpper(s[i]) == ToUpper(name[i]) {
        assert ToUpper(s[i]) == Upper(s)[i] == Upper(name)[i];
      }
    }
  }

  lemma SameLower(s: string, name: string)
    requires Ascii(name)
    ensures Lower(s) == Lower(name) <==> SameInSmall(s, name)
  {
    if Lower(s) == Lower(name) {
      assert |s| == |Lower(s)| == |name|;
      forall i | 0 <= i < |s| ensures ToLower(s[i]) == ToLower(name[i]) {
        assert ToLower(s[i]) == Lower(s)[i] == Lower(name)[i];
      }
    }
  }

  /** The names of each algorithm as they are registered (section 3.1 of RFC 7518, section 3.1 of RFC 8037), and the
      curve's own name for EdDSA. */
  function AlgorithmNames(a: JwtAlgorithm): seq<string> {
    match a
    case EdDsa => ["EdDSA", "Ed25519"]
    case Es256 => ["ES256"] case Es384 => ["ES384"]
    case Rs256 => ["RS256"] case Rs384 => ["RS384"] case Rs512 => ["RS512"]
    case Ps256 => ["PS256"] case Ps384 => ["PS384"] case Ps512 => ["PS512"]
  }

  ghost predicate NamesAlgorithm(s: string, a: JwtAlgorithm) {
    exists name :: name in AlgorithmNames(a) && SameInCapitals(s, name)
  }

  /** An algorithm is recognised by its names, each letter in either case, and by nothing else. */
  lemma ParseJWTAlgorithmExact(s: string, a: JwtAlgorithm)
    ensures ParseJWTAlgorithm(s) == Some(a) <==> NamesAlgorithm(s, a)
  {
    var names, capitals := AlgorithmNames(a), InCapitals(a);
    NamesInCapitals(a);
    CapitalsAreDistinct(Upper(s), a);
    assert names[0] in names && names[|names| - 1] in names;
    forall i | 0 <= i < |names| ensures Upper(s) == capitals[i] <==> SameInCapitals(s, names[i]) {
      SameUpper(s, names[i]);
    }
  }

  /** The same names as the switch has them. */
  function InCapitals(a: JwtAlgorithm): seq<string> {
    if a == EdDsa then ["EDDSA", "ED25519"] else AlgorithmNames(a)
  }

  lemma CapitalsAreDistinct(u: string, a: JwtAlgorithm)
    ensures AlgorithmNamed(u) == Some(a) <==> u in InCapitals(a)
  {
    if u in InCapitals(a) {
      assert a.EdDsa? <==> u[1] == 'D';
    }
  }

  lemma NamesInCapitals(a: JwtAlgorithm)
    ensures |AlgorithmNames(a)| == |InCapitals(a)|
    ensures forall i :: 0 <= i < |AlgorithmNames(a)| ==>
              Ascii(AlgorithmNames(a)[i]) && Upper(AlgorithmNames(a)[i]) == InCapitals(a)[i]
  {
    if a == EdDsa {
      assert Upper("EdDSA") == "EDDSA" && Upper("Ed25519") == "ED25519";
    } else {
      CapitalsStay(AlgorithmNames(a)[0]);
    }
  }

  lemma CapitalsStay(name: string)
    requires forall i :: 0 <= i < |name| ==> ToUpper(name[i]) == name[i]
    ensures Upper(name) == name
  {
  }

  function FormatName(f: JwtKeyFormat): string {
    match f case Jwks => "jwks" case Jwk => "jwk" case Pem => "pem"
  }

  lemma ParseJWTKeyFormatExact(s: string, f: JwtKeyFormat)
    ensures ParseJWTKeyFormat(s) == Some(f) <==> SameInSmall(s, FormatName(f))
  {
    assert Lower("jwks") == "jwks" && Lower("jwk") == "jwk" && Lower("pem") == "pem";
    SameLower(s, FormatName(f));
  }

  /** jwtSigner. */
  function JwtSigner(o: Options): Built<Jwt> {
    if o.jwtKeyFile == "" then Rejected(NoSigningKey)
    else
      var issuer := if o.jwtIssuer == "" then o.jwtSubject else o.jwtIssuer;
      if issuer == "" then Rejected(NoIssuer)
      else
        match ParseJWTAlgorithm(o.jwtAlgorithm)
        case None => Rejected(BadAlgorithm)
        case Some(alg) =>
          Built(Jwt(JwtKey(alg, Pem, o.jwtKeyFile), AudienceOf(o.jwtAudience), Some(issuer),
              Optional(o.jwtSubject), o.jwtDuration))
  }

  function IdentityConfigs(o: Options): Built<Pair<IdentityConfig, IdentityConfig>> {
    if o.identity == "jwt" then
      match JwtSigner(o)
      case Rejected(why) => Rejected(why)
      case Built(signer) =>
        if o.jwtVerifyKeyFile == "" then Rejected(NoVerifyKey)
        else
          match ParseJWTAlgorithm(o.jwtAlgorithm)
          case None => Rejected(BadAlgorithm)
          case Some(alg) =>
            match ParseJWTKeyFormat(o.jwtVerifyFormat)
            case None => Rejected(BadKeyFormat)
            case Some(format) =>
              var verifier := Jwt(JwtKey(alg, format, o.jwtVerifyKeyFile), AudienceOf(o.jwtAudience),
                                  Optional(o.jwtVerifyIssuer), None, o.jwtDuration);
              Built(Pair(JwtIdentity(signer), JwtIdentity(verifier)))
    else if o.identity == "spire" then
      var audiences := match AudienceOf(o.spireAudience) case Some(a) => a case None => [];
      var spire := Spire(Optional(o.spireSocket), Optional(o.spireTargetSpiffeID), audiences, []);
      Built(Pair(SpireIdentity(spire), SpireIdentity(spire)))
    else if o.identity == "shared-secret" then Rejected(SharedSecretHasNoConfigs)
    else Rejected(UnknownIdentity)
  }

  /** The name of an algorithm. */
  ghost predicate KnownAlgorithm(s: string) {
    exists a :: NamesAlgorithm(s, a)
  }

  ghost predicate KnownFormat(s: string) {
    exists f :: SameInSmall(s, FormatName(f))
  }

  lemma KnownExactly(s: string)
    ensures ParseJWTAlgorithm(s).Some? <==> KnownAlgorithm(s)
    ensures ParseJWTKeyFormat(s).Some? <==> KnownFormat(s)
  {
    forall a ensures ParseJWTAlgorithm(s) == Some(a) <==> NamesAlgorithm(s, a) {
      ParseJWTAlgorithmExact(s, a);
    }
    forall f ensures ParseJWTKeyFormat(s) == Some(f) <==> SameInSmall(s, FormatName(f)) {
      ParseJWTKeyFormatExact(s, f);
    }
    var a, f := ParseJWTAlgorithm(s), ParseJWTKeyFormat(s);
    assert a.Some? ==> NamesAlgorithm(s, a.value);
    assert f.Some? ==> SameInSmall(s, FormatName(f.value));
  }

  /** What signing needs of the options. */
  ghost predicate CanSign(o: Options) {
    o.jwtKeyFile != "" && (o.jwtIssuer != "" || o.jwtSubject != "") && KnownAlgorithm(o.jwtAlgorithm)
  }

  /** The option as a list, absent when it has no entries. */
  ghost predicate IsListOf(list: Option<seq<string>>, s: string) {
    match list
    case None => Entries(s) == []
    case Some(entries) => entries == Entries(s) != []
  }

  /** The signer's configuration, or the first thing that is missing. */
  lemma JwtSignerExact(o: Options)
    ensures match JwtSigner(o)
            case Built(j) =>
              && CanSign(o)
              && j.issuer == Some(if o.jwtIssuer != "" then o.jwtIssuer else o.jwtSubject) && j.issuer != Some("")
              && IsListOf(j.audience, o.jwtAudience)
              && j.subject == (if o.jwtSubject == "" then None else Some(o.jwtSubject))
              && j.duration == o.jwtDuration
              && j.key.path == o.jwtKeyFile && j.key.format == Pem && NamesAlgorithm(o.jwtAlgorithm, j.key.algorithm)
            case Rejected(NoSigningKey) => o.jwtKeyFile == ""
            case Rejected(NoIssuer) => o.jwtKeyFile != "" && o.jwtIssuer == o.jwtSubject == ""
            case Rejected(why) =>
              && why == BadAlgorithm
              && o.jwtKeyFile != "" && (o.jwtIssuer != "" || o.jwtSubject != "") && !KnownAlgorithm(o.jwtAlgorithm)
  {
    KnownExactly(o.jwtAlgorithm);
    if JwtSigner(o).Built? {
      ParseJWTAlgorithmExact(o.jwtAlgorithm, JwtSigner(o).value.key.algorithm);
    }
  }

  /** The identity configs exist exactly for a spire identity, and for a jwt identity whose options can sign and
      verify; otherwise the first thing that is missing is named. The two then agree: one algorithm and one list of
      audiences, all of them non-empty, trimmed and free of commas, for signing and verifying, and the tokens carry a
      non-empty issuer and are signed with the app's own key. */
  lemma IdentityConfigsExact(o: Options)
    ensures match IdentityConfigs(o)
            case Built(p) =>
              && IdentitiesAgree(p, o)
              && (o.identity == "spire" ||
                  (o.identity == "jwt" && CanSign(o) && o.jwtVerifyKeyFile != "" && KnownFormat(o.jwtVerifyFormat)))
            case Rejected(NoVerifyKey) => o.identity == "jwt" && CanSign(o) && o.jwtVerifyKeyFile == ""
            case Rejected(BadKeyFormat) =>
              o.identity == "jwt" && CanSign(o) && o.jwtVerifyKeyFile != "" && !KnownFormat(o.jwtVerifyFormat)
            case Rejected(SharedSecretHasNoConfigs) => o.identity == "shared-secret"
            case Rejected(UnknownIdentity) => o.identity !in {"jwt", "spire", "shared-secret"}
            case Rejected(why) => o.identity == "jwt" && JwtSigner(o) == Rejected(why)
  {
    JwtSignerExact(o);
    KnownExactly(o.jwtVerifyFormat);
    ParsePrintParse(o.jwtAudience);
    if IdentityConfigs(o).Built? && o.identity == "jwt" {
      ParseJWTKeyFormatExact(o.jwtVerifyFormat, IdentityConfigs(o).value.verifier.jwt.key.format);
    }
  }

  ghost predicate IdentitiesAgree(p: Pair<IdentityConfig, IdentityConfig>, o: Options) {
    match (p.provider, p.verifier)
    case (JwtIdentity(signer), JwtIdentity(verifier)) =>
      && o.identity == "jwt"
      && JwtSigner(o) == Built(signer)
      && signer.key.algorithm == verifier.key.algorithm
      && signer.audience == verifier.audience
      && (signer.audience.Some? ==> forall a :: a in signer.audience.value ==> Clean(a))
      && verifier.key.path == o.jwtVerifyKeyFile && SameInSmall(o.jwtVerifyFormat, FormatName(verifier.key.format))
      && verifier.duration == o.jwtDuration
      && verifier.subject == None
      && (match verifier.issuer case None => o.jwtVerifyIssuer == "" case Some(i) => i == o.jwtVerifyIssuer != "")
    case (SpireIdentity(a), SpireIdentity(b)) =>
      && o.identity == "spire"
      && a == b
      && (match a.socketPath case None => o.spireSocket == "" case Some(p) => p == o.spireSocket != "")
      && (match a.targetSpiffeId
          case None => o.spireTargetSpiffeID == ""
          case Some(id) => id == o.spireTargetSpiffeID != "")
      && a.audiences == Entries(o.spireAudience) && a.trustDomains == []
    case _ => false
  }

  // ---------- the node connection ----------

  datatype CaSource = SystemCa | CaFile(path: string)
  datatype TlsSource = NoClientCert | ClientCert(cert: string, key: string)
  datatype Tls = Tls(insecure: bool, insecureSkipVerify: bool, caSource: CaSource, source: TlsSource)
  datatype NodeAuth = NoAuth | StaticJwt(tokenFile: string, duration: int) | SignedJwt(jwt: Jwt)
  datatype ClientConfig = ClientConfig(endpoint: string, tls: Tls, auth: NodeAuth)

  /** An hour, in the nanoseconds of time.Duration. */
  const HOUR := 3_600_000_000_000

  /** slim_bindings.NewSecureClientConfig and NewInsecureClientConfig. */
  function NewSecureClientConfig(endpoint: string): ClientConfig {
    ClientConfig(endpoint, Tls(false, false, SystemCa, NoClientCert), NoAuth)
  }

  function NewInsecureClientConfig(endpoint: string): ClientConfig {
    ClientConfig(endpoint, Tls(true, false, SystemCa, NoClientCert), NoAuth)
  }

  predicate BeginsWith(s: string, prefix: string) {
    |prefix| <= |s| && s[..|prefix|] == prefix
  }

  /** When the connection is to be encrypted. */
  ghost predicate Encrypted(o: Options) {
    o.tls || BeginsWith(o.endpoint, "https://") || BeginsWith(o.endpoint, "wss://")
  }

  /** The TLS options fit the endpoint: a certificate comes with its key, and without TLS there is none of them. */
  ghost predicate TlsFits(o: Options) {
    if Encrypted(o) then o.tlsCertFile == "" <==> o.tlsKeyFile == ""
    else o.tlsCAFile == "" && o.tlsCertFile == "" && o.tlsKeyFile == "" && !o.tlsInsecureSkipVerify
  }

  /** What an accepted configuration owes its options: it is encrypted when it has to be, every TLS option that was
      given is in it, and credentials are sent exactly in the two modes that ask for them. */
  ghost predicate Honours(cfg: ClientConfig, o: Options) {
    && cfg.endpoint == o.endpoint
    && (cfg.tls.insecure <==> !Encrypted(o))
    && cfg.tls.insecureSkipVerify == o.tlsInsecureSkipVerify
    && cfg.tls.caSource == (if o.tlsCAFile == "" then SystemCa else CaFile(o.tlsCAFile))
    && (match cfg.tls.source
        case NoClientCert => o.tlsCertFile == "" && o.tlsKeyFile == ""
        case ClientCert(c, k) => c == o.tlsCertFile != "" && k == o.tlsKeyFile != "")
    && AuthHonours(cfg.auth, o)
  }

  ghost predicate AuthHonours(auth: NodeAuth, o: Options) {
    match auth
    case NoAuth => o.nodeAuth == "none" || o.nodeAuth == ""
    case StaticJwt(file, duration) =>
      o.nodeAuth == "bearer" && file == o.nodeTokenFile != "" && duration == 3600 * 1_000_000_000
    case SignedJwt(jwt) => o.nodeAuth == "jwt" && JwtSigner(o) == Built(jwt)
  }

  /** Why there are no credentials. */
  ghost predicate AuthRejected(why: Rejection, o: Options) {
    match why
    case NoTokenFile => o.nodeAuth == "bearer" && o.nodeTokenFile == ""
    case UnknownNodeAuth => o.nodeAuth != "none" && o.nodeAuth != "" && o.nodeAuth != "bearer" && o.nodeAuth != "jwt"
    case _ => o.nodeAuth == "jwt" && JwtSigner(o) == Rejected(why)
  }

  /** When the connection options are accepted. */
  ghost predicate Connectable(o: Options) {
    && TlsFits(o)
    && (o.nodeAuth == "none" || o.nodeAuth == "" || (o.nodeAuth == "bearer" && o.nodeTokenFile != "") ||
        (o.nodeAuth == "jwt" && CanSign(o)))
  }

  /** What MakeClientConfig promises of its two kinds of answer leaves no choice between them. */
  lemma ConnectableExactly(o: Options)
    ensures forall auth :: AuthHonours(auth, o) && TlsFits(o) ==> Connectable(o)
    ensures forall why :: AuthRejected(why, o) ==> !Connectable(o)
  {
    JwtSignerExact(o);
  }

  /** Options.ClientConfig: the configuration, or the first thing that is wrong. */
  method MakeClientConfig(o: Options) returns (r: Built<ClientConfig>)
    ensures r.Built? <==> Connectable(o)
    ensures match r
            case Built(cfg) => TlsFits(o) && Honours(cfg, o)
            case Rejected(CertAndKeyBelongTogether) => Encrypted(o) && !TlsFits(o)
            case Rejected(TlsOptionsNeedTls) => !Encrypted(o) && !TlsFits(o)
            case Rejected(why) => TlsFits(o) && AuthRejected(why, o)
  {
    ConnectableExactly(o);
    var useTLS := o.tls || "https://" <= o.endpoint || "wss://" <= o.endpoint;
    var cfg: ClientConfig;
    if useTLS {
      cfg := NewSecureClientConfig(o.endpoint);
      if o.tlsCAFile != "" {
        cfg := cfg.(tls := cfg.tls.(caSource := CaFile(o.tlsCAFile)));
      }
      cfg := cfg.(tls := cfg.tls.(insecureSkipVerify := o.tlsInsecureSkipVerify));
      if o.tlsCertFile != "" && o.tlsKeyFile != "" {
        cfg := cfg.(tls := cfg.tls.(source := ClientCert(o.tlsCertFile, o.tlsKeyFile)));
      } else if o.tlsCertFile != "" || o.tlsKeyFile != "" {
        return Rejected(CertAndKeyBelongTogether);
      }
    } else {
      if o.tlsCAFile != "" || o.tlsCertFile != "" || o.tlsKeyFile != "" || o.tlsInsecureSkipVerify {
        return Rejected(TlsOptionsNeedTls);
      }
      cfg := NewInsecureClientConfig(o.endpoint);
    }
    var auth := MakeNodeAuth(o);
    if auth.Rejected? {
      return Rejected(auth.why);
    }
    cfg := cfg.(auth := auth.value);
    return Built(cfg);
  }

  /** Its second half: the credentials. */
  method MakeNodeAuth(o: Options) returns (r: Built<NodeAuth>)
    ensures match r
            case Built(auth) => AuthHonours(auth, o)
            case Rejected(why) => AuthRejected(why, o)
  {
    JwtSignerExact(o);
    if o.nodeAuth == "none" || o.nodeAuth == "" {
      return Built(NoAuth);
    } else if o.nodeAuth == "bearer" {
      if o.nodeTokenFile == "" {
        return Rejected(NoTokenFile);
      }
      return Built(StaticJwt(o.nodeTokenFile, HOUR));
    } else if o.nodeAuth == "jwt" {
      var signer := JwtSigner(o);
      if signer.Rejected? {
        return Rejected(signer.why);
      }
      return Built(SignedJwt(signer.value));
    } else {
      return Rejected(UnknownNodeAuth);
    }
  }
}
