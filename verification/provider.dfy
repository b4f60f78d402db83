/** The Choria security provider and the options that configure it. Each Go
    `Option` closure becomes a method of `ChoriaSecurity` that performs what the
    closure does to its receiver; a closure that can fail returns its error. */
module Provider {
  import opened Wrappers
  import opened Hex
  import opened ChoriaConfig

  /** An opaque logger entry and the structured fields it tags its records with. */
  datatype LogEntry = LogEntry(sink: nat, fields: map<string, string>)

  /** The entry with `extra` added to its fields (later keys win). */
  function WithFields(l: LogEntry, extra: map<string, string>): (r: LogEntry)
    ensures r.sink == l.sink && r.fields.Keys == l.fields.Keys + extra.Keys
    ensures forall k <- extra :: r.fields[k] == extra[k]
    ensures forall k <- l.fields | k !in extra :: r.fields[k] == l.fields[k]
  {
    l.(fields := l.fields + extra)
  }

  /** The provider's native configuration, a shared object: the security
      provider holds a reference to it, and so may the caller that built it. */
  class Config {
    var tls: Option<TLSPolicy>
    var trustedTokenSigners: seq<Key>
    var identity: string
    var tokenFile: string
    var seedFile: string
    var remoteSignerURL: string
    var remoteSignerTokenFile: string
    var remoteSigner: Option<SignerRef>

    /** The configuration's current contents. */
    function View(): ConfigValue
      reads this
    {
      ConfigValue(tls, trustedTokenSigners, identity, tokenFile, seedFile,
                  remoteSignerURL, remoteSignerTokenFile, remoteSigner)
    }

    constructor (v: ConfigValue)
      ensures View() == v
    {
      tls := v.tls;
      trustedTokenSigners := v.trustedTokenSigners;
      identity := v.identity;
      tokenFile := v.tokenFile;
      seedFile := v.seedFile;
      remoteSignerURL := v.remoteSignerURL;
      remoteSignerTokenFile := v.remoteSignerTokenFile;
      remoteSigner := v.remoteSigner;
    }
  }

  class ChoriaSecurity {
    var conf: Config?
    var log: Option<LogEntry>

    /** A provider before any option has been applied. */
    constructor ()
      ensures conf == null && log == None
    {
      conf := null;
      log := None;
    }

    /** The provider has a configuration and that configuration has a TLS policy. */
    predicate TLSReady()
      reads this, conf
    {
      conf != null && conf.tls.Some?
    }

    /** Builds a new configuration from Choria settings. The new object replaces
        the old one only when every check has passed; on an error the provider
        keeps the configuration it had. */
    method WithChoriaConfig(c: Settings, env: map<string, string>, windows: bool) returns (err: Option<BuildError>)
      modifies this
      ensures log == old(log)
      ensures match FromSettings(c, env, windows)
        case Success(v) => err == None && conf != null && fresh(conf) && conf.View() == v && TLSReady()
        case Failure(e) => err == Some(e) && conf == old(conf)
    {
      var cfg := new Config(ConfigValue(Some(c.tlsPolicy), [], "", "", "", c.remoteSignerURL, c.remoteSignerTokenFile, None));
      var signers := c.trustedSigners;
      for i := 0 to |signers|
        invariant cfg.View() == ConfigValue(Some(c.tlsPolicy), cfg.trustedTokenSigners, "", "", "",
                                            c.remoteSignerURL, c.remoteSignerTokenFile, None)
        invariant DecodeSigners(signers[..i]) == Success(cfg.trustedTokenSigners)
        invariant conf == old(conf) && log == old(log)
      {
        var signer := signers[i];
        assert forall j | 0 <= j < i :: signers[..i][j] == signers[j];
        var pk := Decode(signer);
        if pk.Failure? {
          FirstInvalidSignerReported(signers, i);
          return Some(InvalidKeyEncoding(signer, pk.error));
        }
        if |pk.value| != PublicKeySize {
          FirstInvalidSignerReported(signers, i);
          return Some(InvalidKeySize(signer, |pk.value|));
        }
        cfg.trustedTokenSigners := cfg.trustedTokenSigners + [pk.value];
        assert signers[..i + 1][..i] == signers[..i];
      }
      assert signers[..|signers|] == signers;

      if c.identity != "" {
        cfg.identity := c.identity;
      } else if !c.initiatedByServer {
        var userEnvVar := "USER";
        if windows {
          userEnvVar := "USERNAME";
        }
        if userEnvVar !in env {
          return Some(IdentityUnresolved(userEnvVar));
        }
        cfg.identity := env[userEnvVar];
      }

      conf := cfg;
      return None;
    }

    /** Sets the path of the file holding the JWT token. */
    method WithTokenFile(f: string)
      requires conf != null
      modifies conf
      ensures conf.View() == old(conf.View()).(tokenFile := f)
      ensures TLSReady() == old(TLSReady())
    {
      conf.tokenFile := f;
    }

    /** Sets the path of the file holding the ed25519 seed. */
    method WithSeedFile(f: string)
      requires conf != null
      modifies conf
      ensures conf.View() == old(conf.View()).(seedFile := f)
      ensures TLSReady() == old(TLSReady())
    {
      conf.seedFile := f;
    }

    /** Sets the remote request signer (`None` clears it). */
    method WithSigner(signer: Option<SignerRef>)
      requires conf != null
      modifies conf
      ensures conf.View() == old(conf.View()).(remoteSigner := signer)
      ensures TLSReady() == old(TLSReady())
    {
      conf.remoteSigner := signer;
    }

    /** Adopts the caller's configuration object itself (not a copy) and gives
        it the default TLS policy when it has none. */
    method WithConfig(c: Config)
      modifies this, c
      ensures conf == c && log == old(log)
      ensures c.View() == old(c.View()).(tls := if old(c.tls).None? then Some(DefaultTLS) else old(c.tls))
      ensures TLSReady()
    {
      conf := c;
      if conf.tls.None? {
        conf.tls := Some(DefaultTLS);
      }
    }

    /** Sets the logger, tagged as the security module, and gives the current
        configuration the default TLS policy when it has none. */
    method WithLog(l: LogEntry)
      requires conf != null
      modifies this, conf
      ensures conf == old(conf)
      ensures log == Some(WithFields(l, map["security" := "choria"]))
      ensures conf.View() == old(conf.View()).(tls := if old(conf.tls).None? then Some(DefaultTLS) else old(conf.tls))
      ensures TLSReady()
    {
      log := Some(WithFields(l, map["security" := "choria"]));
      if conf.tls.None? {
        conf.tls := Some(DefaultTLS);
      }
    }
  }
}
