/** The wire messages of the artifact service, as the handlers and the
    configuration code read them. Every message-typed field is optional,
    as a protobuf pointer is; scalar fields carry their protobuf zero value
    when unset. */
module Proto {
  import opened Wrappers

  /** One byte of a streamed payload. */
  newtype byte = x: int | 0 <= x < 256

  /** The S3 location of an artifact, with its three secret references. */
  datatype S3Artifact = S3Artifact(
    bucket: string,
    key: string,
    endpoint: string,
    region: string,
    insecure: bool,
    roleArn: string,
    useSdkCreds: bool,
    accessKeySecretName: string,
    accessKeySecretKey: string,
    secretKeySecretName: string,
    secretKeySecretKey: string,
    sessionTokenSecretName: string,
    sessionTokenSecretKey: string)

  datatype ArtifactLocation = ArtifactLocation(archiveLogs: bool, s3: Option<S3Artifact>)

  datatype Artifact = Artifact(
    name: string,
    path: string,
    optional: bool,
    subPath: string,
    deleted: bool,
    artifactLocation: Option<ArtifactLocation>)

  /** True when the artifact carries an S3 location: the structural check
      every handler makes before any resolution work. */
  predicate HasS3(a: Artifact) {
    a.artifactLocation.Some? && a.artifactLocation.value.s3.Some?
  }

  /** The S3 location of an artifact that has one. */
  function S3Of(a: Artifact): S3Artifact
    requires HasS3(a)
  {
    a.artifactLocation.value.s3.value
  }

  datatype LoadRequest = LoadRequest(inputArtifact: Option<Artifact>, path: string)
  datatype SaveRequest = SaveRequest(outputArtifact: Option<Artifact>, path: string)
  datatype DeleteRequest = DeleteRequest(artifact: Option<Artifact>)
  datatype ListObjectsRequest = ListObjectsRequest(artifact: Option<Artifact>)
  datatype IsDirectoryRequest = IsDirectoryRequest(artifact: Option<Artifact>)
  datatype OpenStreamRequest = OpenStreamRequest(artifact: Option<Artifact>)

  datatype LoadResponse = LoadResponse(success: bool, error: string)
  datatype SaveResponse = SaveResponse(success: bool, error: string)
  datatype DeleteResponse = DeleteResponse(success: bool, error: string)
  datatype ListObjectsResponse = ListObjectsResponse(objects: seq<string>, error: string)
  datatype IsDirectoryResponse = IsDirectoryResponse(isDirectory: bool, error: string)
  datatype OpenStreamResponse = OpenStreamResponse(data: seq<byte>, isEnd: bool)

  /** The gRPC status codes the handlers use. */
  datatype Code = InvalidArgument | Internal

  /** An error returned to the transport: a status built by the handler, or
      an error from the stream passed through unwrapped. */
  datatype RpcError = Status(code: Code, message: string) | Passthrough(message: string)
}
