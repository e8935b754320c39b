/** Storage configuration and credential resolution (pkg/s3/config.go).
    The Kubernetes API, the in-cluster client and the service-account
    namespace file are collaborators; `Cluster` stands for what they answer. */
module Config {
  import opened Wrappers
  import opened Seqs
  import Proto

  /** The resolved configuration of one request. */
  datatype S3Config = S3Config(
    endpoint: string,
    region: string,
    secure: bool,
    accessKey: string,
    secretKey: string,
    sessionToken: string,
    roleArn: string,
    useSdkCreds: bool,
    bucket: string,
    key: string)

  /** The storage driver's settings, as built from a resolved configuration. */
  datatype ArtifactDriver = ArtifactDriver(
    endpoint: string,
    region: string,
    secure: bool,
    accessKey: string,
    secretKey: string,
    sessionToken: string,
    roleArn: string,
    useSdkCreds: bool)

  /** What one secret read sees: `namespaceFile` is its read of the
      service-account namespace file, and `getSecret(ns, name)` is the secret
      API's answer to it, a secret's data or the API's error. */
  datatype SecretStore = SecretStore(
    namespaceFile: Result<string, string>,
    getSecret: (string, string) -> Result<map<string, string>, string>)

  /** What the cluster answers. `inClusterConfig` and `newClient` are the
      errors (if any) of building the in-cluster client. Each secret read
      reads the namespace file and asks the API afresh, so the three reads of
      one request may see different answers; since each credential is read at
      most once per request, `store(c)` is what the read for `c` sees. */
  datatype Cluster = Cluster(
    inClusterConfig: Option<string>,
    newClient: Option<string>,
    store: Credential -> SecretStore)

  /** The three credentials, in the order they are resolved. */
  datatype Credential = AccessKey | SecretKey | SessionToken

  const ResolutionOrder: seq<Credential> := [AccessKey, SecretKey, SessionToken]

  /** Every credential has its turn in the resolution order. */
  lemma EveryCredentialIsResolved()
    ensures forall c :: c in ResolutionOrder
  {
    forall c ensures c in ResolutionOrder {
      match c
      case AccessKey => assert ResolutionOrder[0] == c;
      case SecretKey => assert ResolutionOrder[1] == c;
      case SessionToken => assert ResolutionOrder[2] == c;
    }
  }

  function Label(c: Credential): string {
    match c
    case AccessKey => "access key"
    case SecretKey => "secret key"
    case SessionToken => "session token"
  }

  function SecretName(s: Proto.S3Artifact, c: Credential): string {
    match c
    case AccessKey => s.accessKeySecretName
    case SecretKey => s.secretKeySecretName
    case SessionToken => s.sessionTokenSecretName
  }

  function SecretKeyOf(s: Proto.S3Artifact, c: Credential): string {
    match c
    case AccessKey => s.accessKeySecretKey
    case SecretKey => s.secretKeySecretKey
    case SessionToken => s.sessionTokenSecretKey
  }

  /** A credential is looked up only when both halves of its reference are set. */
  predicate Requested(s: Proto.S3Artifact, c: Credential) {
    SecretName(s, c) != "" && SecretKeyOf(s, c) != ""
  }

  function Cred(config: S3Config, c: Credential): string {
    match c
    case AccessKey => config.accessKey
    case SecretKey => config.secretKey
    case SessionToken => config.sessionToken
  }

  function WithCred(config: S3Config, c: Credential, v: string): (r: S3Config)
    ensures Cred(r, c) == v
    ensures forall d :: d != c ==> Cred(r, d) == Cred(config, d)
    ensures SameSettings(r, config)
  {
    match c
    case AccessKey => config.(accessKey := v)
    case SecretKey => config.(secretKey := v)
    case SessionToken => config.(sessionToken := v)
  }

  /** Two configurations that agree on everything but the credentials. */
  predicate SameSettings(a: S3Config, b: S3Config) {
    a.(accessKey := "", secretKey := "", sessionToken := "") ==
    b.(accessKey := "", secretKey := "", sessionToken := "")
  }


  /** nil in, nil out; otherwise the wire fields are copied, the insecure
      flag is inverted, and no credential is filled in yet. */
  function ExtractS3Config(s: Option<Proto.S3Artifact>): (r: Option<S3Config>)
    ensures r.None? <==> s.None?
    ensures s.Some? ==>
      && r.value.endpoint == s.value.endpoint
      && r.value.region == s.value.region
      && r.value.secure == !s.value.insecure
      && r.value.roleArn == s.value.roleArn
      && r.value.useSdkCreds == s.value.useSdkCreds
      && r.value.bucket == s.value.bucket
      && r.value.key == s.value.key
      && forall c :: Cred(r.value, c) == ""
  {
    match s
    case None => None
    case Some(a) =>
      Some(S3Config(a.endpoint, a.region, !a.insecure, "", "", "", a.roleArn, a.useSdkCreds, a.bucket, a.key))
  }

  /** Two S3 artifacts extract to the same configuration exactly when they
      agree on the seven copied fields: the secret references play no part. */
  lemma ExtractionSeesOnlyCopiedFields(a: Proto.S3Artifact, b: Proto.S3Artifact)
    ensures ExtractS3Config(Some(a)) == ExtractS3Config(Some(b)) <==>
      && a.endpoint == b.endpoint && a.region == b.region && a.insecure == b.insecure
      && a.roleArn == b.roleArn && a.useSdkCreds == b.useSdkCreds
      && a.bucket == b.bucket && a.key == b.key
  {
  }

  /** Why one secret value could not be read. Each case is one of the three
      failures of reading a secret value; `ErrorText` renders them. */
  datatype SecretError =
    | NamespaceUnreadable(readError: string)
    | SecretUnavailable(secretName: string, apiError: string)
    | KeyNotFound(secretKey: string, secretName: string)

  /** Why credential resolution failed. The cases follow the wrapping of
      the errors: a credential failure carries the secret error it wraps. */
  datatype ResolveError =
    | InvalidConfiguration
    | InClusterConfigFailed(cause: string)
    | ClientCreationFailed(cause: string)
    | CredentialUnresolved(credential: Credential, secretError: SecretError)

  /** A message that wraps another error: the step's words, a colon and the
      whole message of the error it wraps. */
  function Wrap(context: string, err: string): (r: string)
    ensures IsSuffix(": " + err, r)
  {
    context + ": " + err
  }

  /** The message of a secret error. A namespace failure is wrapped twice:
      once where the namespace file is read and once by the secret read. A
      missing key wraps nothing and ends with the secret's name. */
  function SecretErrorText(e: SecretError): (r: string)
    ensures e.NamespaceUnreadable? ==> IsSuffix(": " + e.readError, r)
    ensures e.SecretUnavailable? ==> IsSuffix(": " + e.apiError, r)
    ensures e.KeyNotFound? ==> IsSuffix(" " + e.secretName, r)
  {
    match e
    case NamespaceUnreadable(err) => Wrap("failed to get namespace", Wrap("failed to read namespace", err))
    case SecretUnavailable(name, err) => Wrap("failed to get secret " + name, err)
    case KeyNotFound(key, name) => "secret key " + key + " not found in secret " + name
  }

  /** The message of a resolution error, as the caller of the resolver sees
      it: every failure past the missing configuration wraps its cause, and a
      failed lookup wraps the whole message of the secret error. */
  function ErrorText(e: ResolveError): (r: string)
    ensures e.InvalidConfiguration? ==> r == "invalid S3 configuration"
    ensures e.InClusterConfigFailed? || e.ClientCreationFailed? ==> IsSuffix(": " + e.cause, r)
    ensures e.CredentialUnresolved? ==> IsSuffix(": " + SecretErrorText(e.secretError), r)
  {
    match e
    case InvalidConfiguration => "invalid S3 configuration"
    case InClusterConfigFailed(err) => Wrap("failed to get in-cluster config", err)
    case ClientCreationFailed(err) => Wrap("failed to create kubernetes client", err)
    case CredentialUnresolved(c, cause) => Wrap("failed to resolve " + Label(c), SecretErrorText(cause))
  }

  /** A wrapping message begins with its step's words and the colon. */
  lemma WrapStartsWithContext(context: string, err: string)
    ensures IsPrefix(context + ": ", Wrap(context, err))
  {
    PrefixOfConcat(context + ": ", err);
  }

  /** "failed to get in-cluster config: " and then the cause. */
  lemma InClusterConfigErrorTextWords(err: string)
    ensures IsPrefix("failed to get in-cluster config: ", ErrorText(InClusterConfigFailed(err)))
  {
    WrapStartsWithContext("failed to get in-cluster config", err);
  }

  /** "failed to create kubernetes client: " and then the cause. */
  lemma ClientCreationErrorTextWords(err: string)
    ensures IsPrefix("failed to create kubernetes client: ", ErrorText(ClientCreationFailed(err)))
  {
    WrapStartsWithContext("failed to create kubernetes client", err);
  }

  /** "failed to resolve access key: ", "failed to resolve secret key: " or
      "failed to resolve session token: ", and then the secret error. */
  lemma CredentialErrorTextWords(c: Credential, cause: SecretError)
    ensures IsPrefix("failed to resolve " + Label(c) + ": ", ErrorText(CredentialUnresolved(c, cause)))
  {
    WrapStartsWithContext("failed to resolve " + Label(c), SecretErrorText(cause));
  }

  /** "failed to get namespace: ", then "failed to read namespace: ", and
      then the read's error: the words of both layers of wrapping, outer
      first. */
  lemma NamespaceErrorTextWords(err: string)
    ensures var r := SecretErrorText(NamespaceUnreadable(err));
      && IsPrefix("failed to get namespace: ", r)
      && IsPrefix("failed to read namespace: ", r[|"failed to get namespace: "|..])
  {
    var inner := Wrap("failed to read namespace", err);
    WrapStartsWithContext("failed to get namespace", inner);
    WrapStartsWithContext("failed to read namespace", err);
    assert SecretErrorText(NamespaceUnreadable(err))[|"failed to get namespace: "|..] == inner;
  }

  /** "failed to get secret <name>: " and then the API's error. */
  lemma SecretUnavailableErrorTextWords(name: string, err: string)
    ensures IsPrefix("failed to get secret " + name + ": ", SecretErrorText(SecretUnavailable(name, err)))
  {
    WrapStartsWithContext("failed to get secret " + name, err);
  }

  /** "secret key <key> not found in secret " and then the secret's name. */
  lemma KeyNotFoundErrorTextWords(key: string, name: string)
    ensures IsPrefix("secret key " + key + " not found in secret ", SecretErrorText(KeyNotFound(key, name)))
  {
    PrefixOfConcat("secret key " + key + " not found in secret ", name);
  }

  /** The words a resolution message begins with, which name its step and,
      for a failed lookup, its credential. */
  function StepWords(e: ResolveError): string {
    match e
    case InvalidConfiguration => "invalid S3 configuration"
    case InClusterConfigFailed(_) => "failed to get in-cluster config: "
    case ClientCreationFailed(_) => "failed to create kubernetes client: "
    case CredentialUnresolved(c, _) => "failed to resolve " + Label(c) + ": "
  }

  /** Every resolution message begins with its step's words. */
  lemma ErrorTextStartsWithStepWords(e: ResolveError)
    ensures IsPrefix(StepWords(e), ErrorText(e))
  {
    match e
    case InvalidConfiguration =>
    case InClusterConfigFailed(err) => InClusterConfigErrorTextWords(err);
    case ClientCreationFailed(err) => ClientCreationErrorTextWords(err);
    case CredentialUnresolved(c, cause) => CredentialErrorTextWords(c, cause);
  }

  /** Two resolution errors failed at the same step and, for a failed
      lookup, for the same credential. */
  predicate SameStep(e1: ResolveError, e2: ResolveError) {
    && e1.InvalidConfiguration? == e2.InvalidConfiguration?
    && e1.InClusterConfigFailed? == e2.InClusterConfigFailed?
    && e1.ClientCreationFailed? == e2.ClientCreationFailed?
    && e1.CredentialUnresolved? == e2.CredentialUnresolved?
    && (e1.CredentialUnresolved? ==> e1.credential == e2.credential)
  }

  /** No step's words begin another step's words: they part ways before
      either ends, so words that begin others belong to the same step. */
  lemma StepWordsPrefixFree(e1: ResolveError, e2: ResolveError)
    requires IsPrefix(StepWords(e1), StepWords(e2))
    ensures SameStep(e1, e2)
  {
    if e1.CredentialUnresolved? && e2.CredentialUnresolved? {
      CredentialWordsPrefixFree(e1.credential, e2.credential);
    } else {
      // The words of different steps differ right after "failed to ".
      assert StepWords(e1)[10] == StepWords(e2)[10];
    }
  }

  /** The words of different credentials' failures part ways within the
      label: "access key", "secret key" and "session token" differ in their
      first or third letter. */
  lemma CredentialWordsPrefixFree(c1: Credential, c2: Credential)
    requires IsPrefix("failed to resolve " + Label(c1) + ": ", "failed to resolve " + Label(c2) + ": ")
    ensures c1 == c2
  {
    var w1, w2 := "failed to resolve " + Label(c1) + ": ", "failed to resolve " + Label(c2) + ": ";
    assert w1[18] == w2[18] && w1[20] == w2[20];
  }

  /** A caller that has only the message can still tell which step of
      resolution failed. */
  lemma ErrorTextTellsTheStep(e1: ResolveError, e2: ResolveError)
    requires ErrorText(e1) == ErrorText(e2)
    ensures e1.InvalidConfiguration? == e2.InvalidConfiguration?
    ensures e1.InClusterConfigFailed? == e2.InClusterConfigFailed?
    ensures e1.ClientCreationFailed? == e2.ClientCreationFailed?
    ensures e1.CredentialUnresolved? == e2.CredentialUnresolved?
  {
    SameWords(e1, e2);
  }

  /** The message of a failed lookup tells which credential failed. */
  lemma ErrorTextTellsTheCredential(e1: ResolveError, e2: ResolveError)
    requires ErrorText(e1) == ErrorText(e2)
    requires e1.CredentialUnresolved?
    ensures e2.CredentialUnresolved? && e1.credential == e2.credential
  {
    SameWords(e1, e2);
  }

  /** Two errors with the same message begin with words of the same step. */
  lemma SameWords(e1: ResolveError, e2: ResolveError)
    requires ErrorText(e1) == ErrorText(e2)
    ensures SameStep(e1, e2)
  {
    ErrorTextStartsWithStepWords(e1);
    ErrorTextStartsWithStepWords(e2);
    if |StepWords(e1)| <= |StepWords(e2)| {
      PrefixesOfOneSequence(StepWords(e1), StepWords(e2), ErrorText(e1));
      StepWordsPrefixFree(e1, e2);
    } else {
      PrefixesOfOneSequence(StepWords(e2), StepWords(e1), ErrorText(e1));
      StepWordsPrefixFree(e2, e1);
    }
  }

  /** The error chain is kept whole: the message of a failed lookup ends
      with the error of the namespace read or of the secret API that caused
      it. */
  lemma LookupErrorTextEndsWithCause(c: Credential, cause: SecretError)
    requires !cause.KeyNotFound?
    ensures var err := if cause.NamespaceUnreadable? then cause.readError else cause.apiError;
      IsSuffix(": " + err, ErrorText(CredentialUnresolved(c, cause)))
  {
    var err := if cause.NamespaceUnreadable? then cause.readError else cause.apiError;
    var inner := SecretErrorText(cause);
    SuffixOfConcat(": ", inner);
    SuffixTransitive(inner, ": " + inner, ErrorText(CredentialUnresolved(c, cause)));
    SuffixTransitive(": " + err, inner, ErrorText(CredentialUnresolved(c, cause)));
  }

  /** One secret value, read from the secret `name` in the namespace named by
      the service-account namespace file. There are three distinct failures. */
  function GetSecretValue(store: SecretStore, name: string, key: string): (r: Result<string, SecretError>)
    ensures store.namespaceFile.Failure? ==> r == Failure(NamespaceUnreadable(store.namespaceFile.error))
    ensures store.namespaceFile.Success? ==>
      var fetched := store.getSecret(store.namespaceFile.value, name);
      && (fetched.Failure? ==> r == Failure(SecretUnavailable(name, fetched.error)))
      && (fetched.Success? && key !in fetched.value ==> r == Failure(KeyNotFound(key, name)))
      && (fetched.Success? && key in fetched.value ==> r == Success(fetched.value[key]))
  {
    match store.namespaceFile
    case Failure(e) => Failure(NamespaceUnreadable(e))
    case Success(ns) =>
      match store.getSecret(ns, name)
      case Failure(e) => Failure(SecretUnavailable(name, e))
      case Success(data) =>
        if key in data then Success(data[key])
        else Failure(KeyNotFound(key, name))
  }

  /** The store's answer for one credential reference, as the read for that
      credential sees it. */
  function Lookup(cluster: Cluster, s: Proto.S3Artifact, c: Credential): Result<string, SecretError> {
    GetSecretValue(cluster.store(c), SecretName(s, c), SecretKeyOf(s, c))
  }

  /** The credentials of `todo` that are requested, in order. */
  function Wanted(s: Proto.S3Artifact, todo: seq<Credential>): (r: seq<Credential>)
    ensures forall c :: c in r <==> c in todo && Requested(s, c)
  {
    if todo == [] then []
    else (if Requested(s, todo[0]) then [todo[0]] else []) + Wanted(s, todo[1..])
  }

  /** An outcome of resolution together with the credentials whose lookup was
      attempted, in order. */
  datatype Fetched = Fetched(result: Result<S3Config, ResolveError>, lookups: seq<Credential>)

  /** Resolves the credentials of `todo` one after the other into `config`,
      stopping at the first failing lookup. The lookups attempted are always
      a prefix of the wanted ones, all of them when resolution succeeds; a
      failure is reported for the last lookup attempted, which failed. */
  function ResolveEach(lookup: Credential -> Result<string, SecretError>, s: Proto.S3Artifact,
                       todo: seq<Credential>, config: S3Config): (r: Fetched)
    ensures IsPrefix(r.lookups, Wanted(s, todo))
    ensures r.result.Success? ==> r.lookups == Wanted(s, todo) && SameSettings(r.result.value, config)
    ensures r.result.Failure? ==>
      && |r.lookups| > 0
      && var last := r.lookups[|r.lookups| - 1];
         && lookup(last).Failure?
         && r.result.error == CredentialUnresolved(last, lookup(last).error)
  {
    if todo == [] then Fetched(Success(config), [])
    else
      var c := todo[0];
      if Requested(s, c) then
        assert Wanted(s, todo) == [c] + Wanted(s, todo[1..]);
        match lookup(c)
        case Failure(e) =>
          PrefixOfConcat([c], Wanted(s, todo[1..]));
          Fetched(Failure(CredentialUnresolved(c, e)), [c])
        case Success(v) =>
          var rest := ResolveEach(lookup, s, todo[1..], WithCred(config, c, v));
          PrefixExtends([c], rest.lookups, Wanted(s, todo[1..]));
          Fetched(rest.result, [c] + rest.lookups)
      else
        ResolveEach(lookup, s, todo[1..], config)
  }

  /** Every lookup in `lookups` but the last one succeeded. */
  predicate EarlierLookupsSucceeded(lookup: Credential -> Result<string, SecretError>, lookups: seq<Credential>) {
    forall i :: 0 <= i < |lookups| - 1 ==> lookup(lookups[i]).Success?
  }

  /** Every lookup attempted before the last one succeeded. */
  lemma {:induction false} ResolveEachEarlierLookupsSucceed(lookup: Credential -> Result<string, SecretError>,
      s: Proto.S3Artifact, todo: seq<Credential>, config: S3Config)
    ensures EarlierLookupsSucceeded(lookup, ResolveEach(lookup, s, todo, config).lookups)
    decreases |todo|
  {
    if todo != [] {
      var c := todo[0];
      if !Requested(s, c) {
        assert ResolveEach(lookup, s, todo, config) == ResolveEach(lookup, s, todo[1..], config);
        ResolveEachEarlierLookupsSucceed(lookup, s, todo[1..], config);
      } else if lookup(c).Success? {
        var next := WithCred(config, c, lookup(c).value);
        var rest := ResolveEach(lookup, s, todo[1..], next).lookups;
        ResolveEachEarlierLookupsSucceed(lookup, s, todo[1..], next);
        assert ResolveEach(lookup, s, todo, config).lookups == [c] + rest;
        EarlierLookupsSucceededCons(lookup, c, rest);
      }
    }
  }

  /** A successful lookup in front keeps the earlier lookups successful. */
  lemma EarlierLookupsSucceededCons(lookup: Credential -> Result<string, SecretError>, c: Credential, rest: seq<Credential>)
    requires lookup(c).Success? && EarlierLookupsSucceeded(lookup, rest)
    ensures EarlierLookupsSucceeded(lookup, [c] + rest)
  {
    var lookups := [c] + rest;
    forall i | 0 <= i < |lookups| - 1 ensures lookup(lookups[i]).Success? {
      if i > 0 {
        assert lookups[i] == rest[i - 1];
      }
    }
  }

  /** On success each requested credential of `todo` holds the store's value
      for its reference. */
  lemma {:induction false} ResolveEachStoresLookedUpValues(lookup: Credential -> Result<string, SecretError>,
      s: Proto.S3Artifact, todo: seq<Credential>, config: S3Config)
    requires ResolveEach(lookup, s, todo, config).result.Success?
    ensures var out := ResolveEach(lookup, s, todo, config).result.value;
      forall c :: c in todo && Requested(s, c) ==> lookup(c) == Success(Cred(out, c))
    decreases |todo|
  {
    if todo != [] {
      var c := todo[0];
      var next := if Requested(s, c) then WithCred(config, c, lookup(c).value) else config;
      ResolveEachStoresLookedUpValues(lookup, s, todo[1..], next);
      ResolveEachKeepsUnwanted(lookup, s, todo[1..], next);
      assert forall d :: d in todo <==> d == c || d in todo[1..];
    }
  }

  /** Resolving `todo` leaves every credential that is not requested in it
      as it was. */
  lemma {:induction false} ResolveEachKeepsUnwanted(lookup: Credential -> Result<string, SecretError>,
      s: Proto.S3Artifact, todo: seq<Credential>, config: S3Config)
    requires ResolveEach(lookup, s, todo, config).result.Success?
    ensures var out := ResolveEach(lookup, s, todo, config).result.value;
      forall c :: !(c in todo && Requested(s, c)) ==> Cred(out, c) == Cred(config, c)
    decreases |todo|
  {
    if todo != [] {
      var c := todo[0];
      var next := if Requested(s, c) then WithCred(config, c, lookup(c).value) else config;
      ResolveEachKeepsUnwanted(lookup, s, todo[1..], next);
      assert forall d :: d in todo <==> d == c || d in todo[1..];
    }
  }

  /** Resolving `todo` fails exactly when the lookup of some requested
      credential in it fails. */
  lemma {:induction false} ResolveEachFailsIffSomeLookupFails(lookup: Credential -> Result<string, SecretError>,
      s: Proto.S3Artifact, todo: seq<Credential>, config: S3Config)
    ensures ResolveEach(lookup, s, todo, config).result.Failure? <==>
      exists c :: c in todo && Requested(s, c) && lookup(c).Failure?
    decreases |todo|
  {
    if todo != [] {
      var c := todo[0];
      var next := if Requested(s, c) && lookup(c).Success? then WithCred(config, c, lookup(c).value) else config;
      ResolveEachFailsIffSomeLookupFails(lookup, s, todo[1..], next);
      assert forall d :: d in todo <==> d == c || d in todo[1..];
    }
  }

  /** The secret store's answers for the references of `s`. */
  function StoreLookup(cluster: Cluster, s: Proto.S3Artifact): Credential -> Result<string, SecretError> {
    c => Lookup(cluster, s, c)
  }

  /** The outcome of `ResolveCredentials`, with a record of the collaborators
      reached: whether building the Kubernetes client was attempted (whether
      or not it succeeded), and which credential lookups were attempted, in
      order. */
  datatype Resolution = Resolution(result: Result<S3Config, ResolveError>, clientAttempted: bool, lookups: seq<Credential>)

  /** Whether resolution goes to the secret store at all: ambient credentials
      are off and building the cluster client succeeds. */
  predicate UsesStore(cluster: Cluster, s: Proto.S3Artifact) {
    !s.useSdkCreds && cluster.inClusterConfig.None? && cluster.newClient.None?
  }

  function ResolveCredentials(cluster: Cluster, s: Option<Proto.S3Artifact>): (r: Resolution)
    ensures s.None? ==> r == Resolution(Failure(InvalidConfiguration), false, [])
    ensures s.Some? && s.value.useSdkCreds ==>
      r == Resolution(Success(ExtractS3Config(s).value), false, [])
    ensures s.Some? && !s.value.useSdkCreds ==> r.clientAttempted
    ensures s.Some? && !s.value.useSdkCreds && cluster.inClusterConfig.Some? ==>
      r.result == Failure(InClusterConfigFailed(cluster.inClusterConfig.value)) && r.lookups == []
    ensures s.Some? && !s.value.useSdkCreds && cluster.inClusterConfig.None? && cluster.newClient.Some? ==>
      r.result == Failure(ClientCreationFailed(cluster.newClient.value)) && r.lookups == []
    ensures s.Some? && UsesStore(cluster, s.value) ==>
      && IsPrefix(r.lookups, Wanted(s.value, ResolutionOrder))
      && (r.result.Failure? ==>
            && 0 < |r.lookups|
            && var last := r.lookups[|r.lookups| - 1];
               && Lookup(cluster, s.value, last).Failure?
               && r.result.error == CredentialUnresolved(last, Lookup(cluster, s.value, last).error))
    ensures r.result.Success? ==>
      && s.Some?
      && r.lookups == (if s.value.useSdkCreds then [] else Wanted(s.value, ResolutionOrder))
      && SameSettings(r.result.value, ExtractS3Config(s).value)
  {
    match ExtractS3Config(s)
    case None => Resolution(Failure(InvalidConfiguration), false, [])
    case Some(config) =>
      if config.useSdkCreds then Resolution(Success(config), false, [])
      else if cluster.inClusterConfig.Some? then
        Resolution(Failure(InClusterConfigFailed(cluster.inClusterConfig.value)), true, [])
      else if cluster.newClient.Some? then
        Resolution(Failure(ClientCreationFailed(cluster.newClient.value)), true, [])
      else
        var fetched := ResolveEach(StoreLookup(cluster, s.value), s.value, ResolutionOrder, config);
        Resolution(fetched.result, true, fetched.lookups)
  }

  /** Once the store is used, resolution is `ResolveEach` over the fixed
      order with the store's answers. */
  lemma ResolutionIsResolveEach(cluster: Cluster, s: Proto.S3Artifact)
    requires UsesStore(cluster, s)
    ensures var fetched := ResolveEach(StoreLookup(cluster, s), s, ResolutionOrder, ExtractS3Config(Some(s)).value);
      ResolveCredentials(cluster, Some(s)) == Resolution(fetched.result, true, fetched.lookups)
  {
  }

  /** When resolution succeeds, each requested credential is the store's
      value for its (namespace, secret name, key) and every other one is empty;
      with ambient credentials all three are empty. */
  lemma ResolvedCredentialsComeFromTheStore(cluster: Cluster, s: Proto.S3Artifact)
    requires ResolveCredentials(cluster, Some(s)).result.Success?
    ensures var out := ResolveCredentials(cluster, Some(s)).result.value;
      forall c :: if Requested(s, c) && !s.useSdkCreds then Lookup(cluster, s, c) == Success(Cred(out, c))
                  else Cred(out, c) == ""
  {
    if !s.useSdkCreds {
      var config := ExtractS3Config(Some(s)).value;
      ResolutionIsResolveEach(cluster, s);
      ResolveEachStoresLookedUpValues(StoreLookup(cluster, s), s, ResolutionOrder, config);
      ResolveEachKeepsUnwanted(StoreLookup(cluster, s), s, ResolutionOrder, config);
      EveryCredentialIsResolved();
    }
  }

  /** Resolution over the fixed order with the store's answers fails
      exactly when the lookup of some requested credential fails. */
  lemma StoreResolutionFailsIffSomeLookupFails(cluster: Cluster, s: Proto.S3Artifact, config: S3Config)
    ensures ResolveEach(StoreLookup(cluster, s), s, ResolutionOrder, config).result.Failure? <==>
      exists c :: Requested(s, c) && Lookup(cluster, s, c).Failure?
  {
    var f := StoreLookup(cluster, s);
    EveryCredentialIsResolved();
    ResolveEachFailsIffSomeLookupFails(f, s, ResolutionOrder, config);
    assert forall c :: f(c) == Lookup(cluster, s, c);
  }

  /** Resolution fails exactly when the lookup of some requested credential
      fails. */
  lemma ResolutionFailsIffSomeLookupFails(cluster: Cluster, s: Proto.S3Artifact)
    requires UsesStore(cluster, s)
    ensures ResolveCredentials(cluster, Some(s)).result.Failure? <==>
      exists c :: Requested(s, c) && Lookup(cluster, s, c).Failure?
  {
    ResolutionIsResolveEach(cluster, s);
    StoreResolutionFailsIffSomeLookupFails(cluster, s, ExtractS3Config(Some(s)).value);
  }

  /** Lookups run in the order access key, secret key, session token, and the
      first failure ends resolution: every lookup attempted before the last
      one succeeded. */
  lemma ResolutionStopsAtFirstFailure(cluster: Cluster, s: Proto.S3Artifact)
    requires UsesStore(cluster, s)
    ensures EarlierLookupsSucceeded(StoreLookup(cluster, s), ResolveCredentials(cluster, Some(s)).lookups)
  {
    ResolutionIsResolveEach(cluster, s);
    ResolveEachEarlierLookupsSucceed(StoreLookup(cluster, s), s, ResolutionOrder, ExtractS3Config(Some(s)).value);
  }

  /** An absent secret reference is not an error: with no reference set, and
      a cluster client that can be built, resolution succeeds without a single
      lookup and returns the extracted configuration. */
  lemma AbsentReferencesAreNotAnError(cluster: Cluster, s: Proto.S3Artifact)
    requires forall c :: !Requested(s, c)
    requires s.useSdkCreds || (cluster.inClusterConfig.None? && cluster.newClient.None?)
    ensures var r := ResolveCredentials(cluster, Some(s));
      && r.result == Success(ExtractS3Config(Some(s)).value)
      && r.lookups == []
  {
    if !s.useSdkCreds {
      var config := ExtractS3Config(Some(s)).value;
      var f := StoreLookup(cluster, s);
      ResolutionIsResolveEach(cluster, s);
      assert ResolveEach(f, s, [SessionToken], config) == Fetched(Success(config), []);
      assert ResolveEach(f, s, [SecretKey, SessionToken], config) == Fetched(Success(config), []);
      assert ResolveEach(f, s, ResolutionOrder, config) == Fetched(Success(config), []);
    }
  }

  /** A driver is built from every resolved configuration; it carries the
      connection settings and credentials, but not the bucket or key. */
  function CreateArtifactDriver(config: S3Config): (d: ArtifactDriver)
    ensures d.endpoint == config.endpoint && d.region == config.region && d.secure == config.secure
    ensures d.accessKey == config.accessKey && d.secretKey == config.secretKey
    ensures d.sessionToken == config.sessionToken
    ensures d.roleArn == config.roleArn && d.useSdkCreds == config.useSdkCreds
  {
    ArtifactDriver(config.endpoint, config.region, config.secure, config.accessKey, config.secretKey,
                   config.sessionToken, config.roleArn, config.useSdkCreds)
  }

  /** The driver forgets exactly the bucket and key: two configurations give
      the same driver precisely when they differ in those two fields at most. */
  lemma DriverForgetsOnlyBucketAndKey(a: S3Config, b: S3Config)
    ensures CreateArtifactDriver(a) == CreateArtifactDriver(b) <==> a.(bucket := b.bucket, key := b.key) == b
  {
  }
}
