/** Endpoint preprocessing (`processConfiguration` in config.go): each
    configured endpoint is copied into a preprocessed endpoint that carries
    its TLS material, read from files and parsed once at start-up. Reading a
    file and parsing certificates are done by library code, modelled here as
    oracles: a file system that maps readable paths to their contents, and a
    `Crypto` value holding the two parsing decisions. */
module Config {
  import opened Wrappers

  newtype uint16 = x: int | 0 <= x < 0x1_0000
  newtype byte = x: int | 0 <= x < 0x100
  type Bytes = seq<byte>

  datatype TlsConfiguration = TlsConfiguration(
    certificateAuthorityPath: string,
    clientCertificatePath: string,
    clientKeyPath: string,
    insecureSkipVerify: bool)

  /** One endpoint as it appears in the configuration file. */
  datatype Endpoint = Endpoint(
    name: string,
    address: string,
    httpMethod: string,
    timeout: uint16,
    successfulStatusCode: string,
    inverseStatus: bool,
    tlsConfiguration: TlsConfiguration)

  /** A pool of trusted roots built from the certificates of one PEM file. */
  datatype CertPool = CertPool(pem: Bytes)

  /** A client certificate with its private key, parsed from two PEM files. */
  datatype Certificate = Certificate(certificatePem: Bytes, keyPem: Bytes)

  /** `rootCA == None` stands for Go's nil pool: the platform's default roots. */
  datatype PreprocessedTlsConfiguration = PreprocessedTlsConfiguration(
    certificates: seq<Certificate>,
    rootCA: Option<CertPool>,
    insecureSkipVerify: bool)

  datatype PreprocessedEndpoint = PreprocessedEndpoint(
    name: string,
    address: string,
    httpMethod: string,
    timeout: uint16,
    successfulStatusCode: string,
    inverseStatus: bool,
    tlsConfiguration: PreprocessedTlsConfiguration)

  /** The readable files and their contents; a path absent from the map
      cannot be read. */
  type FileSystem = map<string, Bytes>

  /** The certificate parsers: whether PEM data holds at least one
      certificate (`AppendCertsFromPEM`), and whether a certificate and a key
      form a valid pair (`tls.X509KeyPair`). */
  datatype Crypto = Crypto(pemHasCertificate: Bytes -> bool, validKeyPair: (Bytes, Bytes) -> bool)

  /** The errors `processConfiguration` returns, one per `fmt.Errorf`. */
  datatype ConfigError =
    | ReadingCertificateAuthority(path: string)
    | InvalidPemFormat
    | ReadingCertificate(path: string)
    | ReadingKey(path: string)
    | CreatingKeyPair

  /** `os.ReadFile` against the file-system oracle. */
  function ReadFile(fs: FileSystem, path: string): (r: Option<Bytes>)
    ensures r.Some? <==> path in fs
    ensures r.Some? ==> r.value == fs[path]
  {
    if path in fs then Some(fs[path]) else None
  }

  /** The trust roots of one endpoint: none when no CA path is configured. */
  function LoadRootCA(path: string, fs: FileSystem, crypto: Crypto): Result<Option<CertPool>, ConfigError> {
    if path == "" then Success(None)
    else match ReadFile(fs, path)
      case None => Failure(ReadingCertificateAuthority(path))
      case Some(file) =>
        if crypto.pemHasCertificate(file) then Success(Some(CertPool(file))) else Failure(InvalidPemFormat)
  }

  /** The client certificates of one endpoint: one when both paths are
      configured, none otherwise. */
  function LoadClientCertificates(certPath: string, keyPath: string, fs: FileSystem, crypto: Crypto)
    : Result<seq<Certificate>, ConfigError>
  {
    if certPath == "" || keyPath == "" then Success([])
    else match ReadFile(fs, certPath)
      case None => Failure(ReadingCertificate(certPath))
      case Some(certificateFile) =>
        match ReadFile(fs, keyPath)
        case None => Failure(ReadingKey(keyPath))
        case Some(keyFile) =>
          if crypto.validKeyPair(certificateFile, keyFile) then Success([Certificate(certificateFile, keyFile)])
          else Failure(CreatingKeyPair)
  }

  /** The CA file is configured but cannot be read or holds no certificate. */
  predicate CAFails(t: TlsConfiguration, fs: FileSystem, crypto: Crypto) {
    var path := t.certificateAuthorityPath;
    path != "" && (path !in fs || !crypto.pemHasCertificate(fs[path]))
  }

  /** Both client paths are configured, and a file cannot be read or the pair
      is invalid. */
  predicate ClientPairFails(t: TlsConfiguration, fs: FileSystem, crypto: Crypto) {
    var cert, key := t.clientCertificatePath, t.clientKeyPath;
    cert != "" && key != "" &&
    (cert !in fs || key !in fs || !crypto.validKeyPair(fs[cert], fs[key]))
  }

  /** One iteration of the loop of `processConfiguration`. */
  function PrepareEndpoint(e: Endpoint, fs: FileSystem, crypto: Crypto): (r: Result<PreprocessedEndpoint, ConfigError>)
    ensures r.Failure? <==> CAFails(e.tlsConfiguration, fs, crypto) || ClientPairFails(e.tlsConfiguration, fs, crypto)
    // the CA file is looked at first, and decides the error when it fails
    ensures CAFails(e.tlsConfiguration, fs, crypto) ==>
      r.error == (if e.tlsConfiguration.certificateAuthorityPath in fs then InvalidPemFormat
                  else ReadingCertificateAuthority(e.tlsConfiguration.certificateAuthorityPath))
    ensures r.Success? ==>
      var p, t := r.value, e.tlsConfiguration;
      && p.name == e.name && p.address == e.address && p.httpMethod == e.httpMethod
      && p.timeout == e.timeout && p.successfulStatusCode == e.successfulStatusCode
      && p.inverseStatus == e.inverseStatus
      && p.tlsConfiguration.insecureSkipVerify == t.insecureSkipVerify
      && (p.tlsConfiguration.rootCA.Some? <==> t.certificateAuthorityPath != "")
      && (p.tlsConfiguration.rootCA.Some? ==> p.tlsConfiguration.rootCA.value == CertPool(fs[t.certificateAuthorityPath]))
      && (|p.tlsConfiguration.certificates| == 1 <==> t.clientCertificatePath != "" && t.clientKeyPath != "")
      && (|p.tlsConfiguration.certificates| == 1 ==>
            p.tlsConfiguration.certificates[0] == Certificate(fs[t.clientCertificatePath], fs[t.clientKeyPath]))
      && (|p.tlsConfiguration.certificates| != 1 ==> p.tlsConfiguration.certificates == [])
  {
    var t := e.tlsConfiguration;
    match LoadRootCA(t.certificateAuthorityPath, fs, crypto)
    case Failure(err) => Failure(err)
    case Success(rootCA) =>
      match LoadClientCertificates(t.clientCertificatePath, t.clientKeyPath, fs, crypto)
      case Failure(err) => Failure(err)
      case Success(certificates) =>
        Success(PreprocessedEndpoint(e.name, e.address, e.httpMethod, e.timeout, e.successfulStatusCode, e.inverseStatus,
          PreprocessedTlsConfiguration(certificates, rootCA, t.insecureSkipVerify)))
  }

  /** The whole of `processConfiguration`: the endpoints in order, or the
      error of the first endpoint that fails. */
  function ProcessAll(endpoints: seq<Endpoint>, fs: FileSystem, crypto: Crypto): Result<seq<PreprocessedEndpoint>, ConfigError> {
    if endpoints == [] then Success([])
    else
      match ProcessAll(endpoints[..|endpoints| - 1], fs, crypto)
      case Failure(err) => Failure(err)
      case Success(done) =>
        match PrepareEndpoint(endpoints[|endpoints| - 1], fs, crypto)
        case Failure(err) => Failure(err)
        case Success(p) => Success(done + [p])
  }

  /** Once a prefix of the endpoints fails, the whole list fails with the
      same error: later endpoints are never looked at. */
  lemma {:induction false} PrefixFailure(endpoints: seq<Endpoint>, n: nat, fs: FileSystem, crypto: Crypto)
    requires n <= |endpoints|
    requires ProcessAll(endpoints[..n], fs, crypto).Failure?
    ensures ProcessAll(endpoints, fs, crypto) == ProcessAll(endpoints[..n], fs, crypto)
  {
    if n < |endpoints| {
      var init := endpoints[..|endpoints| - 1];
      assert init[..n] == endpoints[..n];
      PrefixFailure(init, n, fs, crypto);
    } else {
      assert endpoints[..n] == endpoints;
    }
  }

  /** On success there is exactly one preprocessed endpoint per configured
      endpoint, in the same order, each the result of its own endpoint. */
  lemma {:induction false} ProcessAllSuccess(endpoints: seq<Endpoint>, fs: FileSystem, crypto: Crypto)
    ensures ProcessAll(endpoints, fs, crypto).Success? <==>
      forall i :: 0 <= i < |endpoints| ==> PrepareEndpoint(endpoints[i], fs, crypto).Success?
    ensures ProcessAll(endpoints, fs, crypto).Success? ==>
      var out := ProcessAll(endpoints, fs, crypto).value;
      |out| == |endpoints| &&
      forall i :: 0 <= i < |endpoints| ==> out[i] == PrepareEndpoint(endpoints[i], fs, crypto).value
  {
    if endpoints != [] {
      var init := endpoints[..|endpoints| - 1];
      ProcessAllSuccess(init, fs, crypto);
      assert forall i :: 0 <= i < |init| ==> init[i] == endpoints[i];
    }
  }

  /** On failure the error is that of the first failing endpoint. */
  lemma {:induction false} ProcessAllFirstError(endpoints: seq<Endpoint>, k: nat, fs: FileSystem, crypto: Crypto)
    requires k < |endpoints|
    requires PrepareEndpoint(endpoints[k], fs, crypto).Failure?
    requires forall j :: 0 <= j < k ==> PrepareEndpoint(endpoints[j], fs, crypto).Success?
    ensures ProcessAll(endpoints, fs, crypto) == Failure(PrepareEndpoint(endpoints[k], fs, crypto).error)
  {
    var prefix := endpoints[..k];
    ProcessAllSuccess(prefix, fs, crypto);
    assert endpoints[..k + 1][..k] == prefix;
    assert ProcessAll(endpoints[..k + 1], fs, crypto) == Failure(PrepareEndpoint(endpoints[k], fs, crypto).error);
    PrefixFailure(endpoints, k + 1, fs, crypto);
  }

  /** With no CA path and at most one of the two client paths on every
      endpoint, no error branch is reachable: preprocessing succeeds whatever
      the files and parsers, with default roots and no client certificate. */
  lemma NoTlsFilesAlwaysSucceeds(endpoints: seq<Endpoint>, fs: FileSystem, crypto: Crypto)
    requires forall i :: 0 <= i < |endpoints| ==>
      var t := endpoints[i].tlsConfiguration;
      t.certificateAuthorityPath == "" && (t.clientCertificatePath == "" || t.clientKeyPath == "")
    ensures ProcessAll(endpoints, fs, crypto).Success?
    ensures |ProcessAll(endpoints, fs, crypto).value| == |endpoints|
    ensures forall i :: 0 <= i < |endpoints| ==>
      var p := ProcessAll(endpoints, fs, crypto).value[i].tlsConfiguration;
      p.rootCA == None && p.certificates == []
  {
    ProcessAllSuccess(endpoints, fs, crypto);
  }

  /** `processConfiguration`: walks the endpoints, appending one
      preprocessed endpoint per iteration, and returns on the first error. */
  method ProcessConfiguration(endpoints: seq<Endpoint>, fs: FileSystem, crypto: Crypto)
    returns (r: Result<seq<PreprocessedEndpoint>, ConfigError>)
    ensures r == ProcessAll(endpoints, fs, crypto)
  {
    var preprocessedEndpoints: seq<PreprocessedEndpoint> := [];
    for i := 0 to |endpoints|
      invariant ProcessAll(endpoints[..i], fs, crypto) == Success(preprocessedEndpoints)
    {
      var endpoint := endpoints[i];
      var t := endpoint.tlsConfiguration;
      var certificates: seq<Certificate> := [];
      var rootCA: Option<CertPool> := None;
      assert endpoints[..i + 1][..i] == endpoints[..i];

      if t.certificateAuthorityPath != "" {
        var file := ReadFile(fs, t.certificateAuthorityPath);
        if file.None? {
          r := Failure(ReadingCertificateAuthority(t.certificateAuthorityPath));
          PrefixFailure(endpoints, i + 1, fs, crypto);
          return;
        }
        rootCA := Some(CertPool(file.value));
        if !crypto.pemHasCertificate(file.value) {
          r := Failure(InvalidPemFormat);
          PrefixFailure(endpoints, i + 1, fs, crypto);
          return;
        }
      }

      if t.clientCertificatePath != "" && t.clientKeyPath != "" {
        var certificateFile := ReadFile(fs, t.clientCertificatePath);
        if certificateFile.None? {
          r := Failure(ReadingCertificate(t.clientCertificatePath));
          PrefixFailure(endpoints, i + 1, fs, crypto);
          return;
        }
        var keyFile := ReadFile(fs, t.clientKeyPath);
        if keyFile.None? {
          r := Failure(ReadingKey(t.clientKeyPath));
          PrefixFailure(endpoints, i + 1, fs, crypto);
          return;
        }
        if !crypto.validKeyPair(certificateFile.value, keyFile.value) {
          r := Failure(CreatingKeyPair);
          PrefixFailure(endpoints, i + 1, fs, crypto);
          return;
        }
        certificates := certificates + [Certificate(certificateFile.value, keyFile.value)];
        assert certificates == [Certificate(certificateFile.value, keyFile.value)];
      }

      var preprocessed := PreprocessedEndpoint(
        endpoint.name, endpoint.address, endpoint.httpMethod, endpoint.timeout,
        endpoint.successfulStatusCode, endpoint.inverseStatus,
        PreprocessedTlsConfiguration(certificates, rootCA, t.insecureSkipVerify));
      assert LoadRootCA(t.certificateAuthorityPath, fs, crypto) == Success(rootCA);
      assert LoadClientCertificates(t.clientCertificatePath, t.clientKeyPath, fs, crypto) == Success(certificates);
      assert PrepareEndpoint(endpoint, fs, crypto) == Success(preprocessed);
      preprocessedEndpoints := preprocessedEndpoints + [preprocessed];
    }
    assert endpoints[..|endpoints|] == endpoints;
    r := Success(preprocessedEndpoints);
  }
}
