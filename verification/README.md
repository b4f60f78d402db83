# Choria security provider options, modelled in Dafny

This project models how the Choria security provider is configured
(`providers/security/choria/option.go`). An `Option` is a closure that takes
the `*ChoriaSecurity` receiver, updates it, and may return an error. The
model has one method on the class `Provider.ChoriaSecurity` for each of the
six options. Each method does to the receiver what the closure does:

- `WithChoriaConfig` builds a brand-new `Config` from Choria settings:
  - it copies the remote-signer URL and token-file path;
  - it decodes every trusted-signer string as Base16 (section 8 of RFC 4648, either case), and each decoded key must be the 32-octet Ed25519 public-key size (section 5.1.5 of RFC 8032);
  - it resolves the identity: an explicit identity wins; otherwise a client takes `USER` (`USERNAME` on Windows) from the environment; a server leaves the identity empty;
  - it installs the new object only after every check has passed.
- `WithTokenFile`, `WithSeedFile` and `WithSigner` each set one field of the current configuration.
- `WithConfig` adopts the caller's own `Config` object.
- `WithLog` installs a logger tagged `security=choria`.
- `WithConfig` and `WithLog` both give the configuration the default TLS policy when it has none.

Files:

- `wrappers.dfy`: `Option` and `Result`.
- `hex.dfy` (module `Hex`): Base16 decoding as Go's `encoding/hex.DecodeString` does it.
  - The first character that is not a hex digit is reported.
  - An odd length is reported only when every character is a hex digit.
  - `Encode` is the inverse, and `DecodeEncode` proves the round trip.
- `choria_config.dfy` (module `ChoriaConfig`): the settings, the configuration contents (`ConfigValue`) and the three errors, all as values.
  - `FromSettings` is what `WithChoriaConfig` computes.
  - The lemmas here state the validation and identity rules.
- `provider.dfy` (module `Provider`): the classes `Config` (Go's `*Config`, a shared object) and `ChoriaSecurity` (fields `conf` and `log`).
  - The option methods are here.
  - `WithChoriaConfig` keeps the source's loop over the signers and is proved against `FromSettings`.
  - The setters are specified by what they change in `Config.View()`.

Inputs that the source reads from the process are parameters here. The
environment is a `map<string, string>`: a key that is present means
`os.LookupEnv` succeeds, even when its value is empty. The host OS is a
`windows: bool`.

Values built by code outside this file are opaque datatypes:

- the TLS policy (`TLSPolicy`), with `DefaultTLS` standing for what the TLS setup helper returns for no settings;
- the remote signer (`SignerRef`);
- the logger (`LogEntry`).

## Model

| member | source | states |
|---|---|---|
| Hex.Decode | providers/security/choria/option.go:38 | Decoding succeeds exactly when the length is even and every character is a hex digit of either case, and the result then has half the length. `OddLength` is returned exactly when the length is odd and every character is a hex digit. |
| Hex.DecodeOctets | providers/security/choria/option.go:38 | Each decoded octet is 16 × the value of its first hex digit + the value of its second. |
| Hex.DecodeReportsFirstInvalid | providers/security/choria/option.go:38-40 | When there is a non-hex character, the decoding error names the first one. |
| Hex.DecodeEncode | providers/security/choria/option.go:38 | Decoding the Base16 text of any byte string, in lower or upper case, gives back that byte string. |
| ChoriaConfig.CheckSigner | providers/security/choria/option.go:38-44 | A signer is accepted exactly when it is 64 hex digits, and it is then stored as its decoded octets, 32 of them. A decode failure gives `InvalidKeyEncoding` with the string and the decoder's error. Valid hex of the wrong length gives `InvalidKeySize` with the string and the decoded length, which is not 32. |
| ChoriaConfig.DecodeSigners | providers/security/choria/option.go:37-47 | The list is accepted exactly when every signer is accepted. The keys are then the decoded signers, one for one and in input order. |
| ChoriaConfig.FirstInvalidSignerReported | providers/security/choria/option.go:37-44 | When a signer fails and every signer before it was accepted, the list fails with that signer's error. |
| ChoriaConfig.ResolveIdentity | providers/security/choria/option.go:49-63 | Resolution fails exactly when there is no explicit identity, the process is not server-initiated and the OS's user variable is absent. The error then names that variable. |
| ChoriaConfig.FromSettings | providers/security/choria/option.go:31-65 | Building succeeds exactly when the signers are accepted and the identity resolves. A success has the TLS policy built from the settings and the remote-signer URL and token file copied verbatim. It has an empty token file and seed file and no remote signer, so nothing of an earlier configuration survives. It has one 32-octet key per signer. |
| ChoriaConfig.InvalidEncodingAborts | providers/security/choria/option.go:37-41 | A signer that is not valid hex fails the whole build with `InvalidKeyEncoding` naming that string, provided every signer before it was accepted. |
| ChoriaConfig.InvalidSizeAborts | providers/security/choria/option.go:42-44 | A signer that decodes to other than 32 octets fails the build with `InvalidKeySize` carrying the string and its decoded length. |
| ChoriaConfig.ValidKeyThenGarbage | providers/security/choria/option.go:37-41 | The signers `[hex of a valid key, "zz"]` fail with `InvalidKeyEncoding("zz", InvalidByte('z'))`, and no configuration is produced. |
| ChoriaConfig.AcceptedSignersInOrder | providers/security/choria/option.go:37-47 | On success the stored signers are the decoded strings, in input order and one for one, so duplicates are kept. Each is 32 octets. |
| ChoriaConfig.EncodedKeyAccepted | providers/security/choria/option.go:38-46 | The hex text of any 32-octet key is accepted as that key, byte for byte. |
| ChoriaConfig.EncodedKeysStoredVerbatim | providers/security/choria/option.go:37-47 | Take a list of 32-octet keys, each written in hex of either case. It is stored as exactly those keys, in order, and the build then succeeds exactly when the identity resolves. |
| ChoriaConfig.ExplicitIdentityWins | providers/security/choria/option.go:49-50 | A non-empty explicit identity is used verbatim. The result does not depend on the server flag, the environment or the OS. |
| ChoriaConfig.ClientIdentityFromEnvironment | providers/security/choria/option.go:51-62 | A client with no explicit identity gets the value of `USER` (`USERNAME` on Windows). If the variable is absent, the build fails naming it. A signer error, when there is one, is reported instead. |
| ChoriaConfig.SignerErrorPrecedesIdentity | providers/security/choria/option.go:37-63 | A signer error is returned regardless of what identity resolution would give. |
| ChoriaConfig.ServerIdentityDeferred | providers/security/choria/option.go:49-51 | A server with no explicit identity does not consult the environment or the OS. It succeeds with an empty identity whenever the signers are accepted. |
| Provider.WithFields | providers/security/choria/option.go:112 | The logger entry keeps its sink. It gains the given fields, which win over existing ones, and keeps every other field. |
| Provider.Config.constructor | providers/security/choria/option.go:31-35 | A new configuration object holds exactly the given contents. |
| Provider.ChoriaSecurity.WithChoriaConfig | providers/security/choria/option.go:29-69 | On success, `conf` is a new object whose contents are `FromSettings`, with the TLS policy set. On failure the error is `FromSettings`'s and `conf` is the same object as before, untouched. The logger is unchanged either way. |
| Provider.ChoriaSecurity.WithTokenFile | providers/security/choria/option.go:72-77 | Only the token file of the current configuration changes. Whether a TLS policy is set is kept. |
| Provider.ChoriaSecurity.WithSeedFile | providers/security/choria/option.go:80-85 | Only the seed file of the current configuration changes. Whether a TLS policy is set is kept. |
| Provider.ChoriaSecurity.WithSigner | providers/security/choria/option.go:88-94 | Only the remote signer of the current configuration changes. Whether a TLS policy is set is kept. |
| Provider.ChoriaSecurity.WithConfig | providers/security/choria/option.go:97-107 | `conf` becomes the caller's object itself, so later setters write into it. Its TLS policy becomes the default exactly when it had none. Nothing else in it changes, and the logger is unchanged. |
| Provider.ChoriaSecurity.WithLog | providers/security/choria/option.go:110-120 | The logger becomes the given entry with `security=choria` added. The configuration's TLS policy becomes the default exactly when it had none, and nothing else in it changes. |

## Left out

- The message text of the errors is not modelled. Each `BuildError` carries the values its message prints: the signer and the decoder's error, the signer and its decoded length, or the variable name.
- Go strings are bytes, and the model's strings are characters. For a non-ASCII character, Go's `InvalidByteError` reports the first UTF-8 byte, while the model reports the character. Valid hex is ASCII, so acceptance is the same.
- The TLS setup helper, the remote signer and the logging library are foreign code, so their results are opaque values.
- `Provider.WithFields`: models only the merge of the fields into the entry. It does not model the rest of what logrus `WithFields` does (timestamps, context, dropping function-valued fields).
- Nil pointers are not modelled as errors. `WithTokenFile`, `WithSeedFile`, `WithSigner` and `WithLog` dereference `s.conf`, and in Go they panic when it is nil. The model requires `conf` to be non-null instead. `WithConfig` takes a non-null `Config`. `WithChoriaConfig` with nil settings (option.go:33) and `WithLog` with a nil entry (option.go:112) also panic in Go; here both arguments are plain values, so neither panic is modelled.
- The loop that applies a list of options and stops at the first error belongs to the provider's constructor. That constructor is not part of this model. `ChoriaSecurity.constructor` only creates an unconfigured provider.
- The `Config` struct has more fields than these, and its definition is not part of this model. The model keeps the fields that `option.go` reads or writes.
- `BuildInfoProvider` (option.go:24-26) is declared but not used by any option. It is not modelled.
- No operation checks that the identity is non-empty after a build, so no contract claims it. A server-initiated build with no explicit identity succeeds with an empty identity, as the code does.
