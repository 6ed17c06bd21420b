// What a file or an iRODS object holds, and the checksum comparison that
// decides whether an upload is accepted.
module Storage {
  import opened Avu

  datatype Blob = Parquet(rows: seq<Change>) | Damaged(tag: int)

  datatype Algorithm = Sha2 | Md5 | OtherAlgorithm

  // A digest identifies the bytes it was computed from: collisions are excluded
  // by construction.
  datatype Digest = Digest(algorithm: Algorithm, of: Blob)

  /** The `checksum` attribute iRODS reports for an object. */
  datatype Answer =
    | NoChecksum
    | Untagged(digest: Digest)
    | Tagged(algorithm: Algorithm, digest: Digest)

  predicate ChecksumMatches(local: Blob, answer: Answer) {
    match answer
    case NoChecksum => true
    case Untagged(d) => d == Digest(Sha2, local) || d == Digest(Md5, local)
    case Tagged(Sha2, d) => d == Digest(Sha2, local)
    case Tagged(Md5, d) => d == Digest(Md5, local)
    case Tagged(OtherAlgorithm, _) => true
  }

  /** The server computed the digest from the object it stores. */
  predicate Honest(answer: Answer, stored: Blob) {
    match answer
    case NoChecksum => true
    case Untagged(d) => d == Digest(Sha2, stored) || d == Digest(Md5, stored)
    case Tagged(a, d) => d == Digest(a, stored)
  }

  predicate Verifiable(answer: Answer) {
    answer.Untagged? || (answer.Tagged? && !answer.algorithm.OtherAlgorithm?)
  }

  /**
   * An honest answer is accepted exactly when the stored bytes are the local
   * bytes, or when it names no algorithm the client can recompute.
   */
  lemma AcceptedExactlyWhenIntact(local: Blob, stored: Blob, answer: Answer)
    requires Honest(answer, stored)
    ensures ChecksumMatches(local, answer) <==> !Verifiable(answer) || stored == local
  {
    match answer
    case NoChecksum =>
    case Untagged(d) => assert d.of == stored;
    case Tagged(a, d) => assert d.of == stored;
  }
}
