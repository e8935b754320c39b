/** The part of the workflow engine's artifact type that the conversion
    fills in. Fields the conversion never sets are not represented. */
module Argo {
  import opened Wrappers

  datatype S3Artifact = S3Artifact(bucket: string, key: string)

  /** `archiveLogs` is a pointer in the engine's type, so its zero value is
      `None`; the S3 variant is likewise absent in the zero value. */
  datatype ArtifactLocation = ArtifactLocation(archiveLogs: Option<bool>, s3: Option<S3Artifact>)

  /** The zero value of a location: nothing set. */
  const NoLocation := ArtifactLocation(None, None)

  datatype Artifact = Artifact(
    name: string,
    path: string,
    optional: bool,
    subPath: string,
    deleted: bool,
    artifactLocation: ArtifactLocation)
}
