# Artifact plugin server for S3: a Dafny model

This project models the core of an artifact plugin server. The server is a
sidecar that a workflow engine calls over a local socket to load, save,
delete, list, check and stream artifacts kept in S3. The model covers three
parts:

- **Request handlers** (`main.go`). The five unary handlers are `Load`,
  `Save`, `Delete`, `ListObjects` and `IsDirectory`. Each one validates the
  request, resolves credentials, builds a driver, converts the artifact,
  calls the driver and maps the outcome into a response record.
  `OpenStream` is the streaming handler. It validates the request the same
  way, then sends the artifact's bytes in reads of at most 1 MiB, followed by
  an end marker.
- **Configuration and credentials** (`pkg/s3/config.go`). The wire S3
  location is turned into an `S3Config`. Up to three secrets are fetched from
  the Kubernetes secret store: access key, secret key and session token. The
  driver settings are then built from the configuration.
- **Artifact conversion** (`pkg/s3/conversion.go`). A field-copying
  translation from the wire artifact to the workflow engine's artifact type.

Everything is written as pure functions over immutable datatypes. The
collaborators are parameters:

- `Config.Cluster` stands for the in-cluster client and, for each
  credential, a `Config.SecretStore`: what that credential's secret read
  sees of the service-account namespace file and the secret API. Every read
  goes to both afresh, so the reads of one request may see different
  answers.
- `Server.Backend` stands for the storage driver's six operations.
- A `Stream.Reader` is the sequence of results of `Read` calls on the opened
  object.
- `sendErr(j)` is the error, if any, of the `j`-th `Send` on the stream.

Resolution errors are values of `Config.ResolveError` and
`Config.SecretError`. Their cases follow the Go error chain: a failed lookup
wraps the secret error that caused it. `Config.ErrorText` renders a value as
the exact message the Go code builds with `fmt.Errorf`, and the handlers
report that message. `Config.Wrap` is the `"<step>: %w"` form those messages
share.

The records `Config.Resolution` and `Server.Unary` also note which
collaborators were reached: whether building the Kubernetes client was
attempted (whether or not it succeeded), which
credential lookups were attempted (in order), and whether the driver was
called. Contracts use these to say when a lookup or a driver call happens.

Modules: `Wrappers` (Option, Result), `Seqs` (prefixes and suffixes), `Proto` (wire messages and gRPC
errors), `Argo` (the part of the engine's artifact type that gets filled in),
`Conversion`, `Config`, `Stream` and `Server`.

## Behaviour worth knowing

- A missing artifact in a unary handler gives a structured failure
  (`Success=false` with a message), not a transport error (main.go:25-30).
  Only `OpenStream` returns transport errors (main.go:71-95).
- The only structural checks are for the artifact, its location and the S3
  variant (main.go:25-37, 71-77). No configuration blob is parsed or checked.
- A credential reference whose secret name or key is empty is skipped,
  without an error (pkg/s3/config.go:69, 78, 87). A request with no usable
  reference therefore reaches the driver with empty credentials
  (`Server.MissingSecretReferencesStillReachDriver`).
- The reading loop of `OpenStream` ends at any read error, not only at end
  of data, and the end marker is sent in every case (main.go:111-121). A
  transfer that fails part-way thus ends like a complete one
  (`Stream.ReadFailureLooksLikeEndOfData`).
- A failed data send is wrapped in an `Internal` status (main.go:107-108).
  A failed end-marker send is returned as it is (main.go:121).
- Each secret read reads the namespace file again (pkg/s3/config.go:101,
  122), so the three reads of one request need not see the same namespace.

## Model

| member | source | states |
|---|---|---|
| `Conversion.ConvertS3Artifact` | pkg/s3/conversion.go:48-59 | nil gives nil; otherwise the result has the same bucket and key |
| `Conversion.ConvertArtifactLocation` | pkg/s3/conversion.go:31-45 | the archive-logs flag is kept; the S3 variant is present exactly when the input has one, with the same bucket and key |
| `Conversion.ConvertToArgoArtifact` | pkg/s3/conversion.go:9-28 | nil gives nil; otherwise the output matches the input under `Corresponds`: the five scalar fields are equal, a missing location stays at its zero value, and a present one keeps archive-logs, bucket and key |
| `Conversion.ConversionIsTheUniqueCorrespondent` | pkg/s3/conversion.go:9-59 | an engine artifact matches the input under `Corresponds` if and only if it is the conversion's output |
| `Conversion.ConversionForgetsOnlyUncopiedFields` | pkg/s3/conversion.go:14-25 | two artifacts convert to the same output exactly when they agree on the scalar fields, on whether a location is present, on archive-logs, and on the converted S3 part |
| `Conversion.ConversionKeepsS3Location` | pkg/s3/conversion.go:23-39 | the converted artifact has an S3 location exactly when the input has one, with the same bucket and key |
| `Config.ExtractS3Config` | pkg/s3/config.go:28-43 | nil gives nil; otherwise endpoint, region, role, ambient-credentials flag, bucket and key are copied, `secure` is the negation of `insecure`, and all three credentials are empty |
| `Config.ExtractionSeesOnlyCopiedFields` | pkg/s3/config.go:34-42 | two S3 locations give the same configuration exactly when they agree on the seven copied fields; the secret references play no part |
| `Config.Wrap` | pkg/s3/config.go:60-124 | a wrapping message ends with ": " followed by the whole message of the error it wraps |
| `Config.SecretErrorText` | pkg/s3/config.go:98-127 | the message of a failed namespace read or secret fetch ends with the underlying error's message; the message of a missing key ends with the secret's name |
| `Config.ErrorText` | pkg/s3/config.go:45-127 | a missing configuration gives "invalid S3 configuration"; each client failure ends with its cause's message; a failed lookup ends with the whole message of its secret error |
| `Config.InClusterConfigErrorTextWords` | pkg/s3/config.go:58-61 | the message of a failed in-cluster config begins "failed to get in-cluster config: " |
| `Config.ClientCreationErrorTextWords` | pkg/s3/config.go:63-66 | the message of a failed client creation begins "failed to create kubernetes client: " |
| `Config.CredentialErrorTextWords` | pkg/s3/config.go:70-91 | the message of a failed lookup begins "failed to resolve access key: ", "failed to resolve secret key: " or "failed to resolve session token: ", after the credential |
| `Config.NamespaceErrorTextWords` | pkg/s3/config.go:101-104 | the message of a failed namespace read begins "failed to get namespace: " and continues "failed to read namespace: " (config.go:122-125) |
| `Config.SecretUnavailableErrorTextWords` | pkg/s3/config.go:106-109 | the message of a failed secret fetch begins "failed to get secret ", the secret's name and ": " |
| `Config.KeyNotFoundErrorTextWords` | pkg/s3/config.go:111-114 | the message of a missing key begins "secret key ", the key, and " not found in secret ", followed by the secret's name |
| `Config.ErrorTextStartsWithStepWords` | pkg/s3/config.go:45-93 | every resolution message begins with its step's words |
| `Config.StepWordsPrefixFree` | pkg/s3/config.go:49-90 | no step's words begin the words of a different step or credential |
| `Config.ErrorTextTellsTheStep` | pkg/s3/config.go:49-90 | two resolution errors with the same message failed at the same step: invalid configuration, in-cluster config, client creation, or a lookup |
| `Config.ErrorTextTellsTheCredential` | pkg/s3/config.go:72-90 | two failed lookups with the same message failed for the same credential |
| `Config.LookupErrorTextEndsWithCause` | pkg/s3/config.go:72-108 | the message of a failed lookup ends with the message of the namespace read or secret API error that caused it |
| `Config.GetSecretValue` | pkg/s3/config.go:98-127 | the secret is read from the namespace that this read finds in the service-account namespace file. There are three distinct failures: the file cannot be read, the secret cannot be fetched (named), or the key is not in the secret's data (key and secret named). Otherwise the result is the value stored under the key |
| `Config.ResolveEach` | pkg/s3/config.go:68-93 | the lookups attempted are a prefix of the requested credentials, taken in order. On success all of them were attempted and every non-credential field is unchanged. On failure the last lookup attempted failed, and the error is that credential's, wrapping the lookup's error |
| `Config.ResolveEachEarlierLookupsSucceed` | pkg/s3/config.go:68-93 | every lookup attempted before the last one succeeded |
| `Config.ResolveEachStoresLookedUpValues` | pkg/s3/config.go:70-92 | after a successful resolution, each requested credential holds the store's value |
| `Config.ResolveEachKeepsUnwanted` | pkg/s3/config.go:69-92 | after a successful resolution, every credential that was not requested is unchanged |
| `Config.ResolveEachFailsIffSomeLookupFails` | pkg/s3/config.go:68-93 | resolution fails exactly when the lookup of some requested credential fails |
| `Config.ResolveCredentials` | pkg/s3/config.go:45-96 | nil gives the invalid-configuration error. With ambient credentials the result is the extracted configuration, and building a client is not attempted and no lookup is made. Each of the two failures to build the client has its own error and makes no lookup. Lookups follow the fixed order and stop at the first failure, which is reported for its credential; on success the settings equal the extracted ones |
| `Config.ResolvedCredentialsComeFromTheStore` | pkg/s3/config.go:68-95 | on success, each requested credential equals the store's value for (namespace, secret name, key), and each credential that was not looked up is empty |
| `Config.ResolutionFailsIffSomeLookupFails` | pkg/s3/config.go:68-93 | once the secret store is used, resolution fails exactly when the lookup of some requested credential fails |
| `Config.ResolutionStopsAtFirstFailure` | pkg/s3/config.go:68-93 | every lookup made before the last one succeeded |
| `Config.AbsentReferencesAreNotAnError` | pkg/s3/config.go:53-95 | with no secret reference set, resolution succeeds with no lookup and returns the extracted configuration, whose credentials are empty (`Config.ExtractS3Config`) |
| `Config.CreateArtifactDriver` | pkg/s3/config.go:129-142 | never fails; copies endpoint, region, secure, the three credentials, role and ambient-credentials flag |
| `Config.DriverForgetsOnlyBucketAndKey` | pkg/s3/config.go:130-142 | two configurations give the same driver exactly when they differ at most in bucket and key |
| `Stream.DataMessagesCarryBytesRead` | main.go:99-110 | the data messages the reads call for are each 1 byte to 1 MiB long and not the end marker, and together they carry every byte read up to and including the first erroring read, in order |
| `Stream.Pump` | main.go:100-114 | if no send fails, every send succeeded; if one fails, it was the last one, all earlier sends succeeded, and the loop reports that send's error |
| `Stream.PumpSendsDataMessages` | main.go:100-114 | the loop sends one data message per non-empty read, in read order, and nothing for an empty read: exactly those messages when no send fails, and a prefix of them, ending at the failed send, when one does |
| `Stream.SendChunks` | main.go:98-121 | with no error, or a failed end-marker send, the messages are exactly the data messages followed by the end marker. On any error the last send failed and every earlier one succeeded. A failed data send gives `Internal` with that send's error, after a prefix of the data messages and no end marker. A failed end-marker send is returned with its own error. The reply is success exactly when every send succeeded |
| `Stream.DataSendFailureGivesInternal` | main.go:107-108 | the reply is an `Internal` status exactly when the send of some data message fails |
| `Stream.SendChunksCarriesBytesRead` | main.go:98-121 | every message before the last is a data message. With no error, or a failed end-marker send, the last one is the end marker and the bytes sent are exactly the bytes read; after a failed data send the bytes sent are a prefix of them |
| `Stream.ReadFailureLooksLikeEndOfData` | main.go:100-121 | a reader that fails part-way produces exactly the messages and status of one that reaches end-of-data at that point |
| `Stream.PumpIgnoresErrorKind` | main.go:100-114 | the reading loop does not distinguish end-of-data from any other read error |
| `Server.Prepare` | main.go:25-52 | a missing artifact gives the handler's own message, and a missing location or S3 variant gives "S3 artifact location is required". A resolver error is reported by its message. On success the call carries the driver built from the resolved configuration and the converted artifact, with the same bucket and key |
| `Server.Load` | main.go:22-66 | never a transport error. The driver is reached exactly when validation and resolution succeed; otherwise the response is `false` with the failure message. A driver error gives `false` with its text; driver success gives `true` with an empty error |
| `Server.Save` | main.go:124-168 | the same as `Load`, for the output artifact and the driver's save call |
| `Server.Delete` | main.go:170-214 | the same as `Load`, for the driver's delete call |
| `Server.ListObjects` | main.go:216-256 | never a transport error. On driver success the object list is the driver's, unchanged, with an empty error; every failure gives an empty list and the message |
| `Server.IsDirectory` | main.go:258-298 | never a transport error. On driver success the flag is the driver's; every failure gives `false` and the message |
| `Server.OpenStream` | main.go:68-122 | a missing artifact or location gives `InvalidArgument`, and a resolution or open failure gives `Internal`, each with no message sent; once the reader is open, the reply is the chunking loop's |
| `Server.DriverUnreachedOnEarlyFailure` | main.go:25-46 | when validation or resolution fails, every backend gives the same reply, so the driver cannot have been used; the streaming handler sends nothing |
| `Server.ResolutionErrorReportedVerbatim` | main.go:40-46 | a resolver error comes back in every unary handler as a structured failure carrying the resolver's message, and the driver is not reached |
| `Server.MissingSecretReferencesStillReachDriver` | main.go:39-55 | an S3 location with no secret references and ambient credentials off reaches the driver, with empty credentials, once building the cluster client succeeds |

## Left out

- `main()` (main.go:300-330) is left out. It covers argument checking, removing a stale socket, creating the directory, listening and serving, which are operating-system and network plumbing. It installs no signal handler and has no shutdown path, so there is nothing of that kind to model.
- Building the in-cluster Kubernetes client and reading the namespace file (pkg/s3/config.go:58-66, 120-127) are foreign calls. They are modelled only by what they return in `Config.Cluster` and `Config.SecretStore`.
- The storage driver's operations are remote I/O that is not part of this model. So is the reader behind `OpenStream`. They appear only as the oracles in `Server.Backend`.
- Closing the reader is not modelled. It releases a resource and its result is ignored.
- Logging, `context` propagation and cancellation, and the concurrency of the gRPC server are left out.
- The strict YAML configuration parser `parsePluginConfiguration`, which pkg/s3/config_test.go:152 calls, belongs to package s3, but its source file is not part of this model. No handler calls it: main.go:40 passes the request's S3 fields straight to `ResolveCredentials`.
- The wire message types are generated code that is not part of this model. `Proto` gives them the fields that the handlers, the configuration code and the conversion read.
- `Stream.Reader`: the loop in main.go:100-114 ends only on a read error. A reader that never returns one would make the handler run forever, so a reader is modelled by its reads up to one that errs.
- `Conversion.ConvertArtifactLocation`: the engine's location type has storage variants other than S3, and the `Argo` module does not represent them. "No other variant is produced" therefore holds by construction and is not stated as a contract.
- `Conversion.ConvertS3Artifact`: the engine's S3 artifact type has more fields than bucket and key. The conversion leaves them at their zero values, and they are not represented.
