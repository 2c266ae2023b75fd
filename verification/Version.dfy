/** When an index counts as up to date (pkg/version.go). */
module Version {
  import opened Wrappers
  import opened Text
  import opened Ignore

  datatype Metadata = Metadata(branch: string, commitSHA: string, ignoreFingerprint: string, fileCount: nat,
                               chunkCount: nat)

  predicate IsStale(meta: Option<Metadata>, currentCommit: string, currentIgnoreFingerprint: string) {
    match meta
    case None => true
    case Some(m) =>
      var indexedCommit := TrimSpace(m.commitSHA);
      var commit := TrimSpace(currentCommit);
      var indexedFingerprint := TrimSpace(m.ignoreFingerprint);
      var fingerprint := TrimSpace(currentIgnoreFingerprint);
      if indexedFingerprint == "" || fingerprint == "" then true
      else if indexedFingerprint != fingerprint then true
      else if indexedCommit == "" || commit == "" then true
      else indexedCommit != commit
  }

  /** A hash as the fingerprint uses it: its output has no white space and is never empty. */
  ghost predicate HexOutput(hash: string -> string) {
    forall s: string :: hash(s) != "" && Trimmed(hash(s))
  }

  /**
   Unless the two pre-images collide, an index is accepted exactly when it was
   built at the same known commit under the same set of ignore patterns.
   */
  lemma FreshMeansSameCommitAndRules(meta: Metadata, indexed: seq<string>, current: seq<string>, commit: string,
                                     hash: string -> string)
    requires IsNormalized(indexed) && IsNormalized(current) && NulFree(indexed) && NulFree(current)
    requires HexOutput(hash) && meta.ignoreFingerprint == hash(PreImage(indexed))
    requires hash(PreImage(indexed)) == hash(PreImage(current)) ==> PreImage(indexed) == PreImage(current)
    ensures !IsStale(Some(meta), commit, hash(PreImage(current))) <==>
            && TrimSpace(commit) != "" && TrimSpace(meta.commitSHA) == TrimSpace(commit)
            && forall p :: p in indexed <==> p in current
  {
    TrimSpaceOfTrimmed(hash(PreImage(indexed)));
    TrimSpaceOfTrimmed(hash(PreImage(current)));
    FingerprintCanonical(indexed, current);
  }

  /** So an accepted index ignored exactly the paths that are ignored now. */
  lemma FreshMeansSameVerdicts(meta: Metadata, indexed: seq<string>, current: seq<string>, commit: string,
                               hash: string -> string, glob: Glob, path: string)
    requires IsNormalized(indexed) && IsNormalized(current) && NulFree(indexed) && NulFree(current)
    requires HexOutput(hash) && meta.ignoreFingerprint == hash(PreImage(indexed))
    requires hash(PreImage(indexed)) == hash(PreImage(current)) ==> PreImage(indexed) == PreImage(current)
    requires !IsStale(Some(meta), commit, hash(PreImage(current)))
    ensures MatchesAny(glob, path, indexed) <==> MatchesAny(glob, path, current)
  {
    FreshMeansSameCommitAndRules(meta, indexed, current, commit, hash);
    FingerprintCanonical(indexed, current);
    SameFingerprintSameVerdict(indexed, current, glob, path);
  }
}
