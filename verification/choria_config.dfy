/** What `WithChoriaConfig` computes, as values: the settings it reads, the
    configuration it builds, the errors it returns, and the lemmas that say
    how the three relate. */
module ChoriaConfig {
  import opened Wrappers
  import opened Hex

  /** Size in octets of an Ed25519 public key (section 5.1.5 of RFC 8032). */
  const PublicKeySize: nat := 32

  /** A decoded trusted-signer public key. */
  type Key = seq<byte>

  /** An opaque TLS policy; building one is left to the TLS setup helper. */
  datatype TLSPolicy = TLSPolicy(descriptor: string)

  /** The policy the TLS setup helper builds when it is given no settings. */
  const DefaultTLS := TLSPolicy("default")

  /** An opaque reference to a remote request signer. */
  datatype SignerRef = SignerRef(handle: nat)

  /** The part of a Choria configuration that `WithChoriaConfig` reads.
      `tlsPolicy` stands for what the TLS setup helper builds from these settings. */
  datatype Settings = Settings(
    tlsPolicy: TLSPolicy,
    remoteSignerURL: string,
    remoteSignerTokenFile: string,
    trustedSigners: seq<string>,
    identity: string,
    initiatedByServer: bool)

  /** The contents of the security provider's native `Config`. */
  datatype ConfigValue = ConfigValue(
    tls: Option<TLSPolicy>,
    trustedTokenSigners: seq<Key>,
    identity: string,
    tokenFile: string,
    seedFile: string,
    remoteSignerURL: string,
    remoteSignerTokenFile: string,
    remoteSigner: Option<SignerRef>)

  /** The three ways `WithChoriaConfig` fails, each with what its message reports. */
  datatype BuildError =
    | InvalidKeyEncoding(signer: string, cause: HexError)
    | InvalidKeySize(signer: string, size: nat)
    | IdentityUnresolved(variable: string)

  /** Decode one trusted-signer string and check its size. */
  function CheckSigner(signer: string): (r: Result<Key, BuildError>)
    ensures r.Success? <==> |signer| == 2 * PublicKeySize && AllHexDigits(signer)
    ensures match r
      case Success(k) => |k| == PublicKeySize && Decode(signer) == Success(k)
      case Failure(InvalidKeyEncoding(s, cause)) => s == signer && Decode(signer) == Failure(cause)
      case Failure(InvalidKeySize(s, n)) =>
        s == signer && AllHexDigits(signer) && |signer| == 2 * n && n != PublicKeySize
      case Failure(IdentityUnresolved(_)) => false
  {
    match Decode(signer)
    case Failure(cause) => Failure(InvalidKeyEncoding(signer, cause))
    case Success(pk) =>
      if |pk| != PublicKeySize then Failure(InvalidKeySize(signer, |pk|)) else Success(pk)
  }

  /** The signer strings checked in order, stopping at the first that fails. */
  function DecodeSigners(signers: seq<string>): (r: Result<seq<Key>, BuildError>)
    ensures r.Success? <==> forall i | 0 <= i < |signers| :: CheckSigner(signers[i]).Success?
    ensures r.Success? ==> |r.value| == |signers|
    ensures r.Success? ==> forall i | 0 <= i < |signers| :: CheckSigner(signers[i]) == Success(r.value[i])
    decreases |signers|
  {
    if signers == [] then Success([])
    else
      var last := |signers| - 1;
      assert forall i | 0 <= i < last :: signers[..last][i] == signers[i];
      match DecodeSigners(signers[..last])
      case Failure(e) => Failure(e)
      case Success(keys) =>
        match CheckSigner(signers[last])
        case Failure(e) => Failure(e)
        case Success(k) => Success(keys + [k])
  }

  /** The environment variable that names the current user on the host OS. */
  function UserEnvVar(windows: bool): string {
    if windows then "USERNAME" else "USER"
  }

  /** Identity resolution: an explicit identity, else (for a client) the user
      variable of the environment, else (for a server) left empty. */
  function ResolveIdentity(explicit: string, initiatedByServer: bool, env: map<string, string>, windows: bool)
    : (r: Result<string, BuildError>)
    ensures r.Failure? <==> explicit == "" && !initiatedByServer && UserEnvVar(windows) !in env
    ensures r.Failure? ==> r.error == IdentityUnresolved(UserEnvVar(windows))
  {
    if explicit != "" then Success(explicit)
    else if !initiatedByServer then
      var userEnvVar := UserEnvVar(windows);
      if userEnvVar in env then Success(env[userEnvVar]) else Failure(IdentityUnresolved(userEnvVar))
    else Success("")
  }

  /** The configuration `WithChoriaConfig` installs, or the error it returns.
      A success never depends on the configuration that was there before. */
  function FromSettings(c: Settings, env: map<string, string>, windows: bool): (r: Result<ConfigValue, BuildError>)
    ensures r.Success? <==> DecodeSigners(c.trustedSigners).Success?
                            && ResolveIdentity(c.identity, c.initiatedByServer, env, windows).Success?
    ensures r.Success? ==> r.value.tls == Some(c.tlsPolicy)
    ensures r.Success? ==> r.value.remoteSignerURL == c.remoteSignerURL
                           && r.value.remoteSignerTokenFile == c.remoteSignerTokenFile
    ensures r.Success? ==> r.value.tokenFile == "" && r.value.seedFile == "" && r.value.remoteSigner == None
    ensures r.Success? ==> |r.value.trustedTokenSigners| == |c.trustedSigners|
                           && forall k <- r.value.trustedTokenSigners :: |k| == PublicKeySize
  {
    match DecodeSigners(c.trustedSigners)
    case Failure(e) => Failure(e)
    case Success(keys) =>
      match ResolveIdentity(c.identity, c.initiatedByServer, env, windows)
      case Failure(e) => Failure(e)
      case Success(id) =>
        Success(ConfigValue(Some(c.tlsPolicy), keys, id, "", "", c.remoteSignerURL, c.remoteSignerTokenFile, None))
  }

  /** The first signer that fails its check decides the error. */
  lemma {:induction false} FirstInvalidSignerReported(signers: seq<string>, i: nat)
    requires i < |signers| && CheckSigner(signers[i]).Failure?
    requires forall j | 0 <= j < i :: CheckSigner(signers[j]).Success?
    ensures DecodeSigners(signers) == Failure(CheckSigner(signers[i]).error)
    decreases |signers|
  {
    var last := |signers| - 1;
    if i < last {
      assert signers[..last][i] == signers[i];
      FirstInvalidSignerReported(signers[..last], i);
    } else {
      assert forall j | 0 <= j < last :: signers[..last][j] == signers[j];
    }
  }

  /** A signer that is not valid hex aborts the build with an error naming that
      string, provided every signer before it was accepted. */
  lemma InvalidEncodingAborts(c: Settings, env: map<string, string>, windows: bool, i: nat)
    requires i < |c.trustedSigners| && Decode(c.trustedSigners[i]).Failure?
    requires forall j | 0 <= j < i :: CheckSigner(c.trustedSigners[j]).Success?
    ensures FromSettings(c, env, windows)
            == Failure(InvalidKeyEncoding(c.trustedSigners[i], Decode(c.trustedSigners[i]).error))
  {
    FirstInvalidSignerReported(c.trustedSigners, i);
  }

  /** A signer that decodes to the wrong number of octets aborts the build with
      an error carrying the string and the decoded length. */
  lemma InvalidSizeAborts(c: Settings, env: map<string, string>, windows: bool, i: nat)
    requires i < |c.trustedSigners|
    requires Decode(c.trustedSigners[i]).Success? && |Decode(c.trustedSigners[i]).value| != PublicKeySize
    requires forall j | 0 <= j < i :: CheckSigner(c.trustedSigners[j]).Success?
    ensures FromSettings(c, env, windows)
            == Failure(InvalidKeySize(c.trustedSigners[i], |Decode(c.trustedSigners[i]).value|))
  {
    FirstInvalidSignerReported(c.trustedSigners, i);
  }

  /** A valid key followed by a string that is not hex: the build fails on the
      second string and produces no configuration at all. */
  lemma ValidKeyThenGarbage(k: Key, c: Settings, env: map<string, string>, windows: bool)
    requires |k| == PublicKeySize
    requires c.trustedSigners == [Encode(k, false), "zz"]
    ensures FromSettings(c, env, windows) == Failure(InvalidKeyEncoding("zz", InvalidByte('z')))
  {
    DecodeReportsFirstInvalid("zz", 0);
    InvalidEncodingAborts(c, env, windows, 1);
  }

  /** On success the stored signers are the decoded strings, in input order and
      one for one (so duplicates are kept), each of the Ed25519 key size. */
  lemma AcceptedSignersInOrder(c: Settings, env: map<string, string>, windows: bool)
    requires FromSettings(c, env, windows).Success?
    ensures var keys := FromSettings(c, env, windows).value.trustedTokenSigners;
            |keys| == |c.trustedSigners|
            && forall i | 0 <= i < |keys| ::
                 Decode(c.trustedSigners[i]) == Success(keys[i]) && |keys[i]| == PublicKeySize
  {
  }

  /** Round trip for one key: the hex text (either case) of a 32-octet key is
      accepted and decodes to that key. */
  lemma EncodedKeyAccepted(k: Key, upper: bool)
    requires |k| == PublicKeySize
    ensures CheckSigner(Encode(k, upper)) == Success(k)
  {
    DecodeEncode(k, upper);
  }

  /** Round trip for a list: hex texts of 32-octet keys are accepted and the
      keys are stored byte for byte, in the same order. */
  lemma EncodedKeysStoredVerbatim(keys: seq<Key>, c: Settings, env: map<string, string>, windows: bool)
    requires forall k <- keys :: |k| == PublicKeySize
    requires |c.trustedSigners| == |keys|
    requires forall i | 0 <= i < |keys| ::
               c.trustedSigners[i] == Encode(keys[i], false) || c.trustedSigners[i] == Encode(keys[i], true)
    ensures DecodeSigners(c.trustedSigners) == Success(keys)
    ensures FromSettings(c, env, windows).Success?
            <==> ResolveIdentity(c.identity, c.initiatedByServer, env, windows).Success?
    ensures FromSettings(c, env, windows).Success? ==> FromSettings(c, env, windows).value.trustedTokenSigners == keys
  {
    forall i | 0 <= i < |keys|
      ensures CheckSigner(c.trustedSigners[i]) == Success(keys[i])
    {
      assert keys[i] in keys;
      if c.trustedSigners[i] == Encode(keys[i], false) {
        EncodedKeyAccepted(keys[i], false);
      } else {
        EncodedKeyAccepted(keys[i], true);
      }
    }
    var r := DecodeSigners(c.trustedSigners);
    assert r.Success?;
    assert r.value == keys;
  }

  /** A non-empty explicit identity is used verbatim; the server flag, the
      environment and the host OS make no difference. */
  lemma ExplicitIdentityWins(c: Settings, env: map<string, string>, windows: bool,
                             server: bool, env': map<string, string>, windows': bool)
    requires c.identity != ""
    ensures FromSettings(c, env, windows) == FromSettings(c.(initiatedByServer := server), env', windows')
    ensures FromSettings(c, env, windows).Success? <==> DecodeSigners(c.trustedSigners).Success?
    ensures FromSettings(c, env, windows).Success? ==> FromSettings(c, env, windows).value.identity == c.identity
  {
  }

  /** A client with no explicit identity takes it from `USER` (`USERNAME` on
      Windows), and fails naming that variable when it is unset. The variable
      is consulted only once every signer has been accepted. */
  lemma ClientIdentityFromEnvironment(c: Settings, env: map<string, string>, windows: bool)
    requires c.identity == "" && !c.initiatedByServer
    ensures var name := UserEnvVar(windows);
            match FromSettings(c, env, windows)
            case Success(v) => name in env && v.identity == env[name]
            case Failure(e) =>
              if DecodeSigners(c.trustedSigners).Failure? then e == DecodeSigners(c.trustedSigners).error
              else name !in env && e == IdentityUnresolved(name)
  {
  }

  /** A signer error is returned whatever the identity settings and the
      environment would have given. */
  lemma SignerErrorPrecedesIdentity(c: Settings, env: map<string, string>, windows: bool)
    requires DecodeSigners(c.trustedSigners).Failure?
    ensures FromSettings(c, env, windows) == Failure(DecodeSigners(c.trustedSigners).error)
  {
  }

  /** A server with no explicit identity never consults the environment and
      succeeds with an empty identity once the signers are accepted. */
  lemma ServerIdentityDeferred(c: Settings, env: map<string, string>, windows: bool,
                               env': map<string, string>, windows': bool)
    requires c.identity == "" && c.initiatedByServer
    ensures FromSettings(c, env, windows) == FromSettings(c, env', windows')
    ensures FromSettings(c, env, windows).Success? <==> DecodeSigners(c.trustedSigners).Success?
    ensures FromSettings(c, env, windows).Success? ==> FromSettings(c, env, windows).value.identity == ""
  {
  }
}
