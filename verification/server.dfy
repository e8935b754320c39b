/** The request handlers of the artifact service (main.go). The storage
    driver's operations are collaborators; `Backend` stands for what they
    answer, given the driver settings and the converted artifact. */
module Server {
  import opened Wrappers
  import opened Proto
  import Argo
  import Conversion
  import Config
  import Stream

  /** The driver's answers. An `Option<string>` is the error of an
      operation that returns nothing else (`None` for success). */
  datatype Backend = Backend(
    load: (Config.ArtifactDriver, Option<Argo.Artifact>, string) -> Option<string>,
    save: (Config.ArtifactDriver, string, Option<Argo.Artifact>) -> Option<string>,
    delete: (Config.ArtifactDriver, Option<Argo.Artifact>) -> Option<string>,
    listObjects: (Config.ArtifactDriver, Option<Argo.Artifact>) -> Result<seq<string>, string>,
    isDirectory: (Config.ArtifactDriver, Option<Argo.Artifact>) -> Result<bool, string>,
    openStream: (Config.ArtifactDriver, Option<Argo.Artifact>) -> Result<Stream.Reader, string>)

  const LocationRequired := "S3 artifact location is required"

  /** What a driver operation is called with: the driver built from the
      resolved configuration and the converted artifact. */
  datatype Call = Call(driver: Config.ArtifactDriver, artifact: Option<Argo.Artifact>)

  /** The pipeline shared by every handler: the artifact must be present and
      carry an S3 location; its credentials are resolved; a driver is built
      and the artifact converted. The error is the message the handler
      reports, `missing` when there is no artifact; a resolution error is
      reported by its message. */
  function Prepare(cluster: Config.Cluster, artifact: Option<Artifact>, missing: string): (r: Result<Call, string>)
    ensures artifact.None? ==> r == Failure(missing)
    ensures artifact.Some? && !HasS3(artifact.value) ==> r == Failure(LocationRequired)
    ensures artifact.Some? && HasS3(artifact.value) ==>
      var resolved := Config.ResolveCredentials(cluster, Some(S3Of(artifact.value))).result;
      && (resolved.Failure? ==> r == Failure(Config.ErrorText(resolved.error)))
      && (resolved.Success? ==> r.Success? && r.value.driver == Config.CreateArtifactDriver(resolved.value))
    ensures r.Success? ==>
      && artifact.Some?
      && r.value.artifact == Conversion.ConvertToArgoArtifact(artifact)
      && r.value.artifact.Some?
      && r.value.artifact.value.artifactLocation.s3 == Some(Argo.S3Artifact(S3Of(artifact.value).bucket, S3Of(artifact.value).key))
  {
    match artifact
    case None => Failure(missing)
    case Some(a) =>
      if !HasS3(a) then Failure(LocationRequired)
      else
        match Config.ResolveCredentials(cluster, Some(S3Of(a))).result
        case Failure(e) => Failure(Config.ErrorText(e))
        case Success(config) =>
          Conversion.ConversionKeepsS3Location(a);
          Success(Call(Config.CreateArtifactDriver(config), Conversion.ConvertToArgoArtifact(artifact)))
  }

  /** The result of a unary handler: the response, the transport error (the
      handlers never return one) and whether the driver was reached. */
  datatype Unary<R> = Unary(response: R, err: Option<RpcError>, driverCalled: bool)

  function Load(cluster: Config.Cluster, backend: Backend, req: LoadRequest): (r: Unary<LoadResponse>)
    ensures r.err == None
    ensures req.inputArtifact.None? ==> r.response == LoadResponse(false, "input artifact is required")
    ensures req.inputArtifact.Some? && !HasS3(req.inputArtifact.value) ==>
      r.response == LoadResponse(false, LocationRequired)
    ensures r.driverCalled <==> Prepare(cluster, req.inputArtifact, "input artifact is required").Success?
    ensures !r.driverCalled ==>
      r.response == LoadResponse(false, Prepare(cluster, req.inputArtifact, "input artifact is required").error)
    ensures r.driverCalled ==>
      var call := Prepare(cluster, req.inputArtifact, "input artifact is required").value;
      var outcome := backend.load(call.driver, call.artifact, req.path);
      r.response == LoadResponse(outcome.None?, if outcome.Some? then outcome.value else "")
  {
    match Prepare(cluster, req.inputArtifact, "input artifact is required")
    case Failure(e) => Unary(LoadResponse(false, e), None, false)
    case Success(call) =>
      match backend.load(call.driver, call.artifact, req.path)
      case Some(e) => Unary(LoadResponse(false, e), None, true)
      case None => Unary(LoadResponse(true, ""), None, true)
  }

  function Save(cluster: Config.Cluster, backend: Backend, req: SaveRequest): (r: Unary<SaveResponse>)
    ensures r.err == None
    ensures req.outputArtifact.None? ==> r.response == SaveResponse(false, "output artifact is required")
    ensures req.outputArtifact.Some? && !HasS3(req.outputArtifact.value) ==>
      r.response == SaveResponse(false, LocationRequired)
    ensures r.driverCalled <==> Prepare(cluster, req.outputArtifact, "output artifact is required").Success?
    ensures !r.driverCalled ==>
      r.response == SaveResponse(false, Prepare(cluster, req.outputArtifact, "output artifact is required").error)
    ensures r.driverCalled ==>
      var call := Prepare(cluster, req.outputArtifact, "output artifact is required").value;
      var outcome := backend.save(call.driver, req.path, call.artifact);
      r.response == SaveResponse(outcome.None?, if outcome.Some? then outcome.value else "")
  {
    match Prepare(cluster, req.outputArtifact, "output artifact is required")
    case Failure(e) => Unary(SaveResponse(false, e), None, false)
    case Success(call) =>
      match backend.save(call.driver, req.path, call.artifact)
      case Some(e) => Unary(SaveResponse(false, e), None, true)
      case None => Unary(SaveResponse(true, ""), None, true)
  }

  function Delete(cluster: Config.Cluster, backend: Backend, req: DeleteRequest): (r: Unary<DeleteResponse>)
    ensures r.err == None
    ensures req.artifact.None? ==> r.response == DeleteResponse(false, "artifact is required")
    ensures req.artifact.Some? && !HasS3(req.artifact.value) ==>
      r.response == DeleteResponse(false, LocationRequired)
    ensures r.driverCalled <==> Prepare(cluster, req.artifact, "artifact is required").Success?
    ensures !r.driverCalled ==>
      r.response == DeleteResponse(false, Prepare(cluster, req.artifact, "artifact is required").error)
    ensures r.driverCalled ==>
      var call := Prepare(cluster, req.artifact, "artifact is required").value;
      var outcome := backend.delete(call.driver, call.artifact);
      r.response == DeleteResponse(outcome.None?, if outcome.Some? then outcome.value else "")
  {
    match Prepare(cluster, req.artifact, "artifact is required")
    case Failure(e) => Unary(DeleteResponse(false, e), None, false)
    case Success(call) =>
      match backend.delete(call.driver, call.artifact)
      case Some(e) => Unary(DeleteResponse(false, e), None, true)
      case None => Unary(DeleteResponse(true, ""), None, true)
  }

  function ListObjects(cluster: Config.Cluster, backend: Backend, req: ListObjectsRequest): (r: Unary<ListObjectsResponse>)
    ensures r.err == None
    ensures req.artifact.None? ==> r.response == ListObjectsResponse([], "artifact is required")
    ensures req.artifact.Some? && !HasS3(req.artifact.value) ==>
      r.response == ListObjectsResponse([], LocationRequired)
    ensures r.driverCalled <==> Prepare(cluster, req.artifact, "artifact is required").Success?
    ensures !r.driverCalled ==>
      r.response == ListObjectsResponse([], Prepare(cluster, req.artifact, "artifact is required").error)
    ensures r.driverCalled ==>
      var call := Prepare(cluster, req.artifact, "artifact is required").value;
      var outcome := backend.listObjects(call.driver, call.artifact);
      r.response == if outcome.Success? then ListObjectsResponse(outcome.value, "")
                    else ListObjectsResponse([], outcome.error)
  {
    match Prepare(cluster, req.artifact, "artifact is required")
    case Failure(e) => Unary(ListObjectsResponse([], e), None, false)
    case Success(call) =>
      match backend.listObjects(call.driver, call.artifact)
      case Failure(e) => Unary(ListObjectsResponse([], e), None, true)
      case Success(objects) => Unary(ListObjectsResponse(objects, ""), None, true)
  }

  function IsDirectory(cluster: Config.Cluster, backend: Backend, req: IsDirectoryRequest): (r: Unary<IsDirectoryResponse>)
    ensures r.err == None
    ensures req.artifact.None? ==> r.response == IsDirectoryResponse(false, "artifact is required")
    ensures req.artifact.Some? && !HasS3(req.artifact.value) ==>
      r.response == IsDirectoryResponse(false, LocationRequired)
    ensures r.driverCalled <==> Prepare(cluster, req.artifact, "artifact is required").Success?
    ensures !r.driverCalled ==>
      r.response == IsDirectoryResponse(false, Prepare(cluster, req.artifact, "artifact is required").error)
    ensures r.driverCalled ==>
      var call := Prepare(cluster, req.artifact, "artifact is required").value;
      var outcome := backend.isDirectory(call.driver, call.artifact);
      r.response == if outcome.Success? then IsDirectoryResponse(outcome.value, "")
                    else IsDirectoryResponse(false, outcome.error)
  {
    match Prepare(cluster, req.artifact, "artifact is required")
    case Failure(e) => Unary(IsDirectoryResponse(false, e), None, false)
    case Success(call) =>
      match backend.isDirectory(call.driver, call.artifact)
      case Failure(e) => Unary(IsDirectoryResponse(false, e), None, true)
      case Success(isDir) => Unary(IsDirectoryResponse(isDir, ""), None, true)
  }

  /** The streaming handler: structural problems are InvalidArgument,
      resolution and open failures are Internal, and in none of these cases
      is a message sent; once the reader is open the chunking loop runs. */
  function OpenStream(cluster: Config.Cluster, backend: Backend, req: OpenStreamRequest,
                      sendErr: nat -> Option<string>): (r: Stream.StreamReply)
    ensures req.artifact.None? ==>
      r == Stream.StreamReply([], Some(Status(InvalidArgument, "artifact is required")))
    ensures req.artifact.Some? && !HasS3(req.artifact.value) ==>
      r == Stream.StreamReply([], Some(Status(InvalidArgument, LocationRequired)))
    ensures req.artifact.Some? && HasS3(req.artifact.value) ==>
      var p := Prepare(cluster, req.artifact, "artifact is required");
      && (p.Failure? ==> r == Stream.StreamReply([], Some(Status(Internal, p.error))))
      && (p.Success? ==>
            var streamOpened := backend.openStream(p.value.driver, p.value.artifact);
            && (streamOpened.Failure? ==> r == Stream.StreamReply([], Some(Status(Internal, streamOpened.error))))
            && (streamOpened.Success? ==> r == Stream.SendChunks(streamOpened.value, sendErr)))
  {
    match req.artifact
    case None => Stream.StreamReply([], Some(Status(InvalidArgument, "artifact is required")))
    case Some(a) =>
      if !HasS3(a) then Stream.StreamReply([], Some(Status(InvalidArgument, LocationRequired)))
      else
        match Prepare(cluster, req.artifact, "artifact is required")
        case Failure(e) => Stream.StreamReply([], Some(Status(Internal, e)))
        case Success(call) =>
          match backend.openStream(call.driver, call.artifact)
          case Failure(e) => Stream.StreamReply([], Some(Status(Internal, e)))
          case Success(reader) => Stream.SendChunks(reader, sendErr)
  }

  /** Until the driver is reached nothing the driver would answer can show
      in a response: when validation or resolution fails, every backend gives
      the same reply, and the streaming handler sends no message. */
  lemma DriverUnreachedOnEarlyFailure(cluster: Config.Cluster, b1: Backend, b2: Backend, artifact: Option<Artifact>, path: string,
                                      sendErr: nat -> Option<string>)
    ensures !Load(cluster, b1, LoadRequest(artifact, path)).driverCalled ==>
      Load(cluster, b1, LoadRequest(artifact, path)) == Load(cluster, b2, LoadRequest(artifact, path))
    ensures !Save(cluster, b1, SaveRequest(artifact, path)).driverCalled ==>
      Save(cluster, b1, SaveRequest(artifact, path)) == Save(cluster, b2, SaveRequest(artifact, path))
    ensures !Delete(cluster, b1, DeleteRequest(artifact)).driverCalled ==>
      Delete(cluster, b1, DeleteRequest(artifact)) == Delete(cluster, b2, DeleteRequest(artifact))
    ensures !ListObjects(cluster, b1, ListObjectsRequest(artifact)).driverCalled ==>
      ListObjects(cluster, b1, ListObjectsRequest(artifact)) == ListObjects(cluster, b2, ListObjectsRequest(artifact))
    ensures !IsDirectory(cluster, b1, IsDirectoryRequest(artifact)).driverCalled ==>
      IsDirectory(cluster, b1, IsDirectoryRequest(artifact)) == IsDirectory(cluster, b2, IsDirectoryRequest(artifact))
    ensures Prepare(cluster, artifact, "artifact is required").Failure? ==>
      && OpenStream(cluster, b1, OpenStreamRequest(artifact), sendErr) == OpenStream(cluster, b2, OpenStreamRequest(artifact), sendErr)
      && OpenStream(cluster, b1, OpenStreamRequest(artifact), sendErr).sent == []
  {
  }

  /** A credential-resolution failure reaches the caller as a structured
      failure carrying the resolver's message unchanged, never as a transport
      error, and the driver is not reached. */
  lemma ResolutionErrorReportedVerbatim(cluster: Config.Cluster, backend: Backend, a: Artifact, path: string)
    requires HasS3(a)
    requires Config.ResolveCredentials(cluster, Some(S3Of(a))).result.Failure?
    ensures var e := Config.ErrorText(Config.ResolveCredentials(cluster, Some(S3Of(a))).result.error);
      && Load(cluster, backend, LoadRequest(Some(a), path)) == Unary(LoadResponse(false, e), None, false)
      && Save(cluster, backend, SaveRequest(Some(a), path)) == Unary(SaveResponse(false, e), None, false)
      && Delete(cluster, backend, DeleteRequest(Some(a))) == Unary(DeleteResponse(false, e), None, false)
      && ListObjects(cluster, backend, ListObjectsRequest(Some(a))) == Unary(ListObjectsResponse([], e), None, false)
      && IsDirectory(cluster, backend, IsDirectoryRequest(Some(a))) == Unary(IsDirectoryResponse(false, e), None, false)
  {
  }

  /** An S3 location with no secret references and ambient credentials off
      is not rejected: once the cluster client can be built, the driver is
      reached with all three credentials empty. */
  lemma MissingSecretReferencesStillReachDriver(cluster: Config.Cluster, backend: Backend, a: Artifact, path: string)
    requires HasS3(a) && !S3Of(a).useSdkCreds
    requires forall c :: !Config.Requested(S3Of(a), c)
    requires cluster.inClusterConfig.None? && cluster.newClient.None?
    ensures Load(cluster, backend, LoadRequest(Some(a), path)).driverCalled
    ensures var d := Prepare(cluster, Some(a), "input artifact is required").value.driver;
      d.accessKey == "" && d.secretKey == "" && d.sessionToken == ""
  {
    Config.AbsentReferencesAreNotAnError(cluster, S3Of(a));
  }
}
