/** Translation of a wire artifact into the workflow engine's artifact type
    (pkg/s3/conversion.go). */
module Conversion {
  import opened Wrappers
  import Proto
  import Argo

  /** The independent description of a correct translation: the five scalar
      fields agree, an absent location stays at its zero value, and a present
      one keeps its archive-logs flag and exactly the bucket and key of its
      S3 variant. */
  predicate Corresponds(a: Proto.Artifact, g: Argo.Artifact) {
    && g.name == a.name
    && g.path == a.path
    && g.optional == a.optional
    && g.subPath == a.subPath
    && g.deleted == a.deleted
    && match a.artifactLocation
       case None => g.artifactLocation == Argo.NoLocation
       case Some(l) =>
         && g.artifactLocation.archiveLogs == Some(l.archiveLogs)
         && (match l.s3
             case None => g.artifactLocation.s3 == None
             case Some(s) =>
               g.artifactLocation.s3 == Some(Argo.S3Artifact(s.bucket, s.key)))
  }

  /** A nil S3 artifact converts to nil; otherwise bucket and key are carried. */
  function ConvertS3Artifact(s: Option<Proto.S3Artifact>): (r: Option<Argo.S3Artifact>)
    ensures r.None? <==> s.None?
    ensures s.Some? ==> r.value.bucket == s.value.bucket && r.value.key == s.value.key
  {
    match s
    case None => None
    case Some(s3) => Some(Argo.S3Artifact(s3.bucket, s3.key))
  }

  function ConvertArtifactLocation(l: Proto.ArtifactLocation): (r: Argo.ArtifactLocation)
    ensures r.archiveLogs == Some(l.archiveLogs)
    ensures r.s3.Some? <==> l.s3.Some?
    ensures l.s3.Some? ==> r.s3.value.bucket == l.s3.value.bucket && r.s3.value.key == l.s3.value.key
  {
    Argo.ArtifactLocation(Some(l.archiveLogs), ConvertS3Artifact(l.s3))
  }

  /** nil in, nil out; otherwise a translation that `Corresponds` to its input. */
  function ConvertToArgoArtifact(a: Option<Proto.Artifact>): (r: Option<Argo.Artifact>)
    ensures r.None? <==> a.None?
    ensures a.Some? ==> Corresponds(a.value, r.value)
  {
    match a
    case None => None
    case Some(art) =>
      var location := match art.artifactLocation
        case None => Argo.NoLocation
        case Some(l) => ConvertArtifactLocation(l);
      Some(Argo.Artifact(art.name, art.path, art.optional, art.subPath, art.deleted, location))
  }

  /** `Corresponds` pins the translation down completely: the conversion's
      output is the one and only engine artifact that corresponds to the input. */
  lemma ConversionIsTheUniqueCorrespondent(a: Proto.Artifact, g: Argo.Artifact)
    ensures Corresponds(a, g) <==> ConvertToArgoArtifact(Some(a)) == Some(g)
  {
    var c := ConvertToArgoArtifact(Some(a)).value;
    if Corresponds(a, g) {
      assert g.artifactLocation == c.artifactLocation;
    }
  }

  /** The conversion forgets exactly the wire fields it does not copy: two
      artifacts translate alike precisely when they agree on the copied ones. */
  lemma ConversionForgetsOnlyUncopiedFields(a: Proto.Artifact, b: Proto.Artifact)
    ensures ConvertToArgoArtifact(Some(a)) == ConvertToArgoArtifact(Some(b)) <==>
      && a.(artifactLocation := None) == b.(artifactLocation := None)
      && a.artifactLocation.None? == b.artifactLocation.None?
      && (a.artifactLocation.Some? && b.artifactLocation.Some? ==>
            && a.artifactLocation.value.archiveLogs == b.artifactLocation.value.archiveLogs
            && ConvertS3Artifact(a.artifactLocation.value.s3) == ConvertS3Artifact(b.artifactLocation.value.s3))
  {
    var ca := ConvertToArgoArtifact(Some(a)).value;
    var cb := ConvertToArgoArtifact(Some(b)).value;
    if ca == cb {
      assert ca.artifactLocation.archiveLogs.None? <==> a.artifactLocation.None?;
      assert cb.artifactLocation.archiveLogs.None? <==> b.artifactLocation.None?;
    }
  }

  /** The handlers rely on this: an artifact with an S3 location still has
      one, with the same bucket and key, after conversion. */
  lemma ConversionKeepsS3Location(a: Proto.Artifact)
    ensures var g := ConvertToArgoArtifact(Some(a)).value;
      && (g.artifactLocation.s3.Some? <==> Proto.HasS3(a))
      && (Proto.HasS3(a) ==>
            g.artifactLocation.s3 == Some(Argo.S3Artifact(Proto.S3Of(a).bucket, Proto.S3Of(a).key)))
  {
  }
}
