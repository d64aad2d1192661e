/** The cache-and-initialise logic of `DefaultEsClientFactory.createEsClient`.

    Building the REST client, loading keystores and building the SSL context
    are foreign calls: a new client is a given `EsClient` value, the file
    system is the set of existing paths, a keystore loading failure is a
    given message, and the readiness wait is the poller of `EsPoller` run
    over a given probe oracle. */
module EsClientFactory {
  import opened Common
  import EsPoller

  /** `POLL_INTERVAL_SECS`. */
  const PollIntervalSecs := 5

  /** The SSL options the parser reads for an `https` client. */
  datatype SslOptions = SslOptions(
    allowSelfSigned: Option<bool>,
    allowAnyHost: Option<bool>,
    keystore: Option<string>,
    keystorePassword: Option<string>,
    truststore: Option<string>,
    truststorePassword: Option<string>)

  /** The parsed client options `createEsClient` uses. */
  datatype EsClientOptions = EsClientOptions(
    protocol: string,
    host: string,
    port: int,
    indexNamePrefix: string,
    pollingTime: int,
    initialize: bool,
    ssl: SslOptions)

  /** Which trust material the SSL context is built from. */
  datatype TrustChoice = TrustSelfSigned | TrustStoreAndKeyMaterial

  /** Which hostname verifier the SSL strategy uses. */
  datatype VerifierChoice = NoopVerifier | DefaultVerifier

  datatype SslStrategy = SslStrategy(trust: TrustChoice, verifier: VerifierChoice)

  /** Why `updateSslConfig` throws its `RuntimeException`. */
  datatype SslError =
    | MissingOption(key: string)
    | PathNotFound(key: string, path: string)
    | StoreLoadFailed(message: string)

  /** What the SSL setup observes of the outside world. */
  datatype SslEnvironment = SslEnvironment(existingPaths: set<string>, loadFailure: Option<string>)

  /** An Elasticsearch client instance. */
  datatype EsClient = EsClient(serial: nat)

  /** What one `createEsClient` call did and returned. */
  datatype Creation = Creation(
    client: EsClient,
    clients: map<string, EsClient>,
    cacheHit: bool,
    polled: bool,
    ssl: Option<SslStrategy>,
    indicesInitialized: bool)

  // ---------------------------------------------------------------------
  // Cache key
  // ---------------------------------------------------------------------

  predicate IsDigit(c: char) {
    '0' <= c <= '9'
  }

  function DigitValue(c: char): nat
    requires IsDigit(c)
  {
    c as int - '0' as int
  }

  /** The decimal digits of a natural number. */
  function NatToDecimal(n: nat): (s: string)
    ensures |s| > 0 && forall i :: 0 <= i < |s| ==> IsDigit(s[i])
    decreases n
  {
    var d := ((n % 10) + '0' as int) as char;
    if n < 10 then [d] else NatToDecimal(n / 10) + [d]
  }

  /** `Integer.toString`: a minus sign, if negative, then the digits. */
  function IntToDecimal(i: int): string {
    if i < 0 then "-" + NatToDecimal(-i) else NatToDecimal(i)
  }

  /** The value of a string of decimal digits. */
  function DecimalValue(s: string): nat
    requires forall i :: 0 <= i < |s| ==> IsDigit(s[i])
    decreases |s|
  {
    if |s| == 0 then 0 else 10 * DecimalValue(s[..|s| - 1]) + DigitValue(s[|s| - 1])
  }

  /** Reading the digits back gives the number. */
  lemma {:induction false} DecimalRoundTrip(n: nat)
    ensures DecimalValue(NatToDecimal(n)) == n
    decreases n
  {
    var s := NatToDecimal(n);
    if n >= 10 {
      DecimalRoundTrip(n / 10);
      assert s[..|s| - 1] == NatToDecimal(n / 10);
    }
  }

  /** The text starts with a minus sign exactly for negative numbers. */
  lemma SignedDecimal(i: int)
    ensures |IntToDecimal(i)| > 0
    ensures IntToDecimal(i)[0] == '-' <==> i < 0
  {
  }

  /** Distinct ports print differently. */
  lemma IntToDecimalInjective(a: int, b: int)
    requires IntToDecimal(a) == IntToDecimal(b)
    ensures a == b
  {
    SignedDecimal(a);
    SignedDecimal(b);
    if a < 0 && b < 0 {
      assert NatToDecimal(-a) == IntToDecimal(a)[1..];
      DecimalRoundTrip(-a);
      DecimalRoundTrip(-b);
    } else if a >= 0 && b >= 0 {
      DecimalRoundTrip(a);
      DecimalRoundTrip(b);
    }
  }

  /** The key under which a client is cached. The host can be read back as
      what lies between the `es:` tag and the first colon after it, as long
      as it has no colon of its own, and the key ends with a slash and the
      prefix. */
  function ClientKey(host: string, port: int, indexNamePrefix: string): (k: string)
    ensures |k| > 4 + |host| + |indexNamePrefix| && k[..3] == "es:" && k[3..3 + |host|] == host
    ensures k[3 + |host|] == ':'
    ensures k[|k| - |indexNamePrefix|..] == indexNamePrefix && k[|k| - |indexNamePrefix| - 1] == '/'
  {
    "es:" + host + ":" + IntToDecimal(port) + "/" + indexNamePrefix
  }

  /** After the `es:` tag, a key is the host, a colon, the port, a slash and the prefix. */
  lemma ClientKeyShape(host: string, port: int, indexNamePrefix: string)
    ensures ClientKey(host, port, indexNamePrefix)[3..] ==
            host + [':'] + (IntToDecimal(port) + ['/'] + indexNamePrefix)
  {
    var k := ClientKey(host, port, indexNamePrefix);
    assert k == "es:" + (host + [':'] + (IntToDecimal(port) + ['/'] + indexNamePrefix));
  }

  /** The text of a number holds digits and a sign only. */
  lemma NoSlashInDecimal(i: int)
    ensures '/' !in IntToDecimal(i)
  {
    var d := IntToDecimal(i);
    forall j | 0 <= j < |d|
      ensures d[j] != '/'
    {
      if i < 0 {
        assert j == 0 || d[j] == NatToDecimal(-i)[j - 1];
      }
    }
  }

  /** In `a + [sep] + b`, with `sep` not in `a`, the first `sep` is at `|a|`. */
  lemma SeparatorPosition(a: string, b: string, sep: char)
    requires sep !in a
    ensures (a + [sep] + b)[|a|] == sep
    ensures forall i :: 0 <= i < |a| ==> (a + [sep] + b)[i] != sep
  {
    forall i | 0 <= i < |a|
      ensures (a + [sep] + b)[i] != sep
    {
      assert (a + [sep] + b)[i] == a[i];
    }
  }

  /** `a + [sep] + b` and `c + [sep] + d` with `sep` in neither `a` nor `c`
      split at the same place. */
  lemma SplitAtFirst(a: string, b: string, c: string, d: string, sep: char)
    requires sep !in a && sep !in c
    requires a + [sep] + b == c + [sep] + d
    ensures a == c && b == d
  {
    var x := a + [sep] + b;
    SeparatorPosition(a, b, sep);
    SeparatorPosition(c, d, sep);
    assert |a| == |c|;
    assert a == x[..|a|] && c == x[..|c|];
    assert b == x[|a| + 1..] && d == x[|c| + 1..];
  }

  /** Clients for different targets never share a cache entry, as long as
      host names contain no colon. */
  lemma ClientKeyInjective(h1: string, p1: int, x1: string, h2: string, p2: int, x2: string)
    requires ':' !in h1 && ':' !in h2
    requires ClientKey(h1, p1, x1) == ClientKey(h2, p2, x2)
    ensures h1 == h2 && p1 == p2 && x1 == x2
  {
    ClientKeyShape(h1, p1, x1);
    ClientKeyShape(h2, p2, x2);
    var r1 := IntToDecimal(p1) + ['/'] + x1;
    var r2 := IntToDecimal(p2) + ['/'] + x2;
    SplitAtFirst(h1, r1, h2, r2, ':');
    NoSlashInDecimal(p1);
    NoSlashInDecimal(p2);
    SplitAtFirst(IntToDecimal(p1), x1, IntToDecimal(p2), x2, '/');
    IntToDecimalInjective(p1, p2);
  }

  /** Without that proviso the key is ambiguous. */
  lemma ClientKeyAmbiguousForColonHosts()
    ensures ClientKey("h:1/x", 2, "y") == ClientKey("h", 1, "x:2/y")
  {
  }

  // ---------------------------------------------------------------------
  // Protocol and SSL
  // ---------------------------------------------------------------------

  /** `String.equalsIgnoreCase` against a lower-case ASCII letter: the letter,
      its upper case, or one of the four non-ASCII characters whose Java case
      mapping reaches it. LATIN SMALL LETTER DOTLESS I upper-cases to `I` and
      LATIN SMALL LETTER LONG S to `S`; LATIN CAPITAL LETTER I WITH DOT ABOVE
      lower-cases to `i` and KELVIN SIGN to `k`. */
  predicate CharMatchesIgnoreCase(c: char, lower: char)
    requires 'a' <= lower <= 'z'
  {
    || c == lower
    || c as int == lower as int - 32
    || (lower == 'i' && (c == '\U{0131}' || c == '\U{0130}'))
    || (lower == 's' && c == '\U{017F}')
    || (lower == 'k' && c == '\U{212A}')
  }

  /** `"https".equalsIgnoreCase(protocol)` and the like, for an ASCII target. */
  predicate EqualsIgnoreCase(s: string, lowerTarget: string)
    requires forall i :: 0 <= i < |lowerTarget| ==> 'a' <= lowerTarget[i] <= 'z'
  {
    |s| == |lowerTarget| && forall i :: 0 <= i < |s| ==> CharMatchesIgnoreCase(s[i], lowerTarget[i])
  }

  /** `getRequiredString`: the option must be present and pass its check. */
  function RequiredString(value: Option<string>, key: string, mustExist: bool, env: SslEnvironment)
    : (r: Result<string, SslError>)
    ensures r.Ok? <==> value.Some? && (mustExist ==> value.value in env.existingPaths)
    ensures r.Ok? ==> r.value == value.value
  {
    match value
    case None => Err(MissingOption(key))
    case Some(v) => if mustExist && v !in env.existingPaths then Err(PathNotFound(key, v)) else Ok(v)
  }

  /** `updateSslConfig`: both stores are always required and loaded; the
      flags only choose the trust material and the hostname verifier. */
  function UpdateSslConfig(opts: SslOptions, env: SslEnvironment): (r: Result<SslStrategy, SslError>)
    ensures r.Ok? <==>
              && opts.keystore.Some? && opts.keystore.value in env.existingPaths
              && opts.keystorePassword.Some?
              && opts.truststore.Some? && opts.truststore.value in env.existingPaths
              && opts.truststorePassword.Some?
              && env.loadFailure.None?
    ensures r.Ok? ==> (r.value.trust == TrustSelfSigned <==> opts.allowSelfSigned == Some(true))
    ensures r.Ok? ==> (r.value.verifier == NoopVerifier <==> opts.allowAnyHost == Some(true))
  {
    var allowSelfSigned := opts.allowSelfSigned.GetOr(false);
    var allowAnyHost := opts.allowAnyHost.GetOr(false);
    match RequiredString(opts.keystore, "client.keystore", true, env)
    case Err(e) => Err(e)
    case Ok(_) =>
      match RequiredString(opts.keystorePassword, "client.keystore.password", false, env)
      case Err(e) => Err(e)
      case Ok(_) =>
        match RequiredString(opts.truststore, "client.truststore", true, env)
        case Err(e) => Err(e)
        case Ok(_) =>
          match RequiredString(opts.truststorePassword, "client.truststore.password", false, env)
          case Err(e) => Err(e)
          case Ok(_) =>
            if env.loadFailure.Some? then Err(StoreLoadFailed(env.loadFailure.value))
            else
              Ok(SslStrategy(
                if allowSelfSigned then TrustSelfSigned else TrustStoreAndKeyMaterial,
                if allowAnyHost then NoopVerifier else DefaultVerifier))
  }

  // ---------------------------------------------------------------------
  // Readiness wait and client creation
  // ---------------------------------------------------------------------

  /** `Math.toIntExact` succeeds on a 32-bit value only. */
  predicate FitsInInt(x: int) {
    -0x8000_0000 <= x < 0x8000_0000
  }

  /** The poller `waitForElasticsearch` builds: no initial delay, one probe
      every five seconds, and the polling time as the deadline. */
  function WaitConfig(pollingTime: int): EsPoller.PollerConfig {
    EsPoller.PollerConfig(0, PollIntervalSecs, pollingTime)
  }

  /** Whether `waitForElasticsearch` returns normally: `toIntExact` must
      succeed and the poller must report ready. Probes run at 0, 5, 10, ...
      seconds, strictly before the polling time. */
  function WaitForElasticsearch(pollingTime: int, probes: nat -> EsPoller.ProbeOutcome): (ok: bool)
    ensures ok <==>
              FitsInInt(pollingTime) &&
              exists k: nat :: 5 * k < pollingTime && probes(k) == EsPoller.Healthy &&
                forall j: nat :: j < k ==> EsPoller.Transient(probes(j))
    ensures ok ==> pollingTime > 0
  {
    EsPoller.ReadyIff(WaitConfig(pollingTime), probes);
    assert forall k: nat :: EsPoller.SlotTime(WaitConfig(pollingTime), k) == 5 * k;
    FitsInInt(pollingTime) && EsPoller.BlockUntilReady(WaitConfig(pollingTime), probes) == EsPoller.Ready
  }

  /** `createEsClient`: reuse a cached client, or build one, apply SSL for
      `https`, wait for the cluster and cache the client only if the wait
      succeeded (a failed wait is logged and swallowed); then initialise
      the indices whenever asked to. */
  function CreateEsClient(clients: map<string, EsClient>, opts: EsClientOptions, created: EsClient,
                          sslEnv: SslEnvironment, probes: nat -> EsPoller.ProbeOutcome)
    : (r: Result<Creation, SslError>)
    ensures r.Ok? ==> r.value.indicesInitialized == opts.initialize
    ensures r.Ok? ==> r.value.cacheHit != r.value.polled
  {
    var key := ClientKey(opts.host, opts.port, opts.indexNamePrefix);
    if key in clients then
      Ok(Creation(clients[key], clients, true, false, None, opts.initialize))
    else
      var ssl: Result<Option<SslStrategy>, SslError> :=
        if EqualsIgnoreCase(opts.protocol, "https") then
          match UpdateSslConfig(opts.ssl, sslEnv)
          case Ok(s) => Ok(Some(s))
          case Err(e) => Err(e)
        else Ok(None);
      match ssl
      case Err(e) => Err(e)
      case Ok(strategy) =>
        var ready := WaitForElasticsearch(opts.pollingTime, probes);
        Ok(Creation(created, if ready then clients[key := created] else clients, false, true, strategy, opts.initialize))
  }

  // ---------------------------------------------------------------------
  // Properties
  // ---------------------------------------------------------------------

  /** A cache hit returns the cached client and creates, configures and
      polls nothing, whatever the environment. */
  lemma CacheHitReusesClient(clients: map<string, EsClient>, opts: EsClientOptions, created: EsClient,
                             sslEnv: SslEnvironment, probes: nat -> EsPoller.ProbeOutcome)
    requires ClientKey(opts.host, opts.port, opts.indexNamePrefix) in clients
    ensures var r := CreateEsClient(clients, opts, created, sslEnv, probes);
      && r.Ok?
      && r.value.client == clients[ClientKey(opts.host, opts.port, opts.indexNamePrefix)]
      && r.value.clients == clients && r.value.cacheHit && !r.value.polled && r.value.ssl.None?
  {
  }

  /** On a miss the new client is returned either way, and is cached exactly
      when the wait for the cluster succeeded. */
  lemma CacheMissCachesOnlyReadyClients(clients: map<string, EsClient>, opts: EsClientOptions, created: EsClient,
                                        sslEnv: SslEnvironment, probes: nat -> EsPoller.ProbeOutcome)
    requires ClientKey(opts.host, opts.port, opts.indexNamePrefix) !in clients
    ensures var r := CreateEsClient(clients, opts, created, sslEnv, probes);
      var key := ClientKey(opts.host, opts.port, opts.indexNamePrefix);
      r.Ok? ==>
        && r.value.client == created && r.value.polled
        && (WaitForElasticsearch(opts.pollingTime, probes) ==> r.value.clients == clients[key := created])
        && (!WaitForElasticsearch(opts.pollingTime, probes) ==> r.value.clients == clients)
  {
  }

  /** A second call with the same options after a successful wait is a hit
      returning the first client; after a failed wait it creates and polls
      again. */
  lemma SecondCallReusesOnlyAfterReady(clients: map<string, EsClient>, opts: EsClientOptions,
                                       first: EsClient, second: EsClient,
                                       sslEnv: SslEnvironment, probes: nat -> EsPoller.ProbeOutcome)
    requires ClientKey(opts.host, opts.port, opts.indexNamePrefix) !in clients
    requires CreateEsClient(clients, opts, first, sslEnv, probes).Ok?
    ensures var r1 := CreateEsClient(clients, opts, first, sslEnv, probes).value;
      var r2 := CreateEsClient(r1.clients, opts, second, sslEnv, probes);
      && (WaitForElasticsearch(opts.pollingTime, probes) ==> r2.Ok? && r2.value.client == first && r2.value.cacheHit)
      && (!WaitForElasticsearch(opts.pollingTime, probes) ==> r2.Ok? && r2.value.client == second && r2.value.polled)
  {
  }

  /** SSL is configured on a miss exactly for the protocol `https` in any
      letter case; its failure escapes `createEsClient`. */
  lemma SslOnlyForHttps(clients: map<string, EsClient>, opts: EsClientOptions, created: EsClient,
                        sslEnv: SslEnvironment, probes: nat -> EsPoller.ProbeOutcome)
    requires ClientKey(opts.host, opts.port, opts.indexNamePrefix) !in clients
    ensures var r := CreateEsClient(clients, opts, created, sslEnv, probes);
      && (!EqualsIgnoreCase(opts.protocol, "https") ==> r.Ok? && r.value.ssl.None?)
      && (EqualsIgnoreCase(opts.protocol, "https") ==>
            match UpdateSslConfig(opts.ssl, sslEnv)
            case Ok(s) => r.Ok? && r.value.ssl == Some(s)
            case Err(e) => r == Err(e))
  {
  }

  /** Spellings of the protocol: upper and mixed case select SSL, `http`
      does not, and so does a long s standing for the final letter. */
  lemma HttpsSpellings()
    ensures EqualsIgnoreCase("HTTPS", "https") && EqualsIgnoreCase("Https", "https")
    ensures !EqualsIgnoreCase("http", "https")
    ensures EqualsIgnoreCase("http\U{017F}", "https")
  {
  }

  /** Both flags default to false: without them the stores' own trust
      material and the default hostname verifier are used. */
  lemma SslFlagsDefaultToFalse(opts: SslOptions, env: SslEnvironment)
    requires opts.allowSelfSigned.None? && opts.allowAnyHost.None?
    requires UpdateSslConfig(opts, env).Ok?
    ensures UpdateSslConfig(opts, env).value == SslStrategy(TrustStoreAndKeyMaterial, DefaultVerifier)
  {
  }

  /** Allowing self-signed certificates does not make the stores optional:
      a missing truststore path is still rejected. */
  lemma SelfSignedStillNeedsStores(opts: SslOptions, env: SslEnvironment)
    requires opts.allowSelfSigned == Some(true)
    requires opts.truststore.Some? && opts.truststore.value !in env.existingPaths
    ensures UpdateSslConfig(opts, env).Err?
  {
  }
}
