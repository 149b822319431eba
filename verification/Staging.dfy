/** The staged release candidate: its bill of materials (BOM) and the check that the
    staged distribution files are exactly the ones the BOM lists. */
module Staging {
  import opened Options
  import opened Ordering

  type Digest = string

  datatype Kind = Source | SupportManifest | Sdist | Wheel | FirstPartyImage | ProviderImage

  datatype Artifact = Artifact(kind: Kind, name: string, version: string, digest: Digest)

  datatype Bom = Bom(commit: Digest, canonical: Digest, artifacts: seq<Artifact>)

  /** A file about to be published: the digest it was checked with, and the digest of
      the bytes the upload command reads when it runs. */
  datatype File = File(name: string, digest: Digest, uploaded: Digest)

  predicate IsDistribution(a: Artifact) { a.kind.Sdist? || a.kind.Wheel? }

  // ------------------------------------------------------------- validate_bom

  predicate IsHexDigit(c: char) { '0' <= c <= '9' || 'a' <= c <= 'f' }

  /** `n` lower-case hex digits. Python's `$` also matches before a last newline, so the patterns
      of the BOM accept one. */
  predicate HexText(s: string, n: nat) {
    && (|s| == n || (|s| == n + 1 && s[n] == '\n'))
    && forall i | 0 <= i < n :: IsHexDigit(s[i])
  }

  const IMAGE_PREFIX := "sha256:"

  predicate ImageDigest(s: string) { IMAGE_PREFIX <= s && HexText(s[|IMAGE_PREFIX|..], 64) }

  /** An artifact entry: nonempty fields, and the digest pattern of its kind. */
  predicate WellShaped(a: Artifact) {
    && a.name != "" && a.version != ""
    && match a.kind
       case Source => HexText(a.digest, 40)
       case FirstPartyImage | ProviderImage => ImageDigest(a.digest)
       case Sdist | Wheel | SupportManifest => HexText(a.digest, 64)
  }

  predicate Has(artifacts: seq<Artifact>, kind: Kind) {
    exists a | a in artifacts :: a.kind == kind
  }

  /** The pair rule names each (name, version) with a distribution in both kinds. */
  predicate Paired(artifacts: seq<Artifact>) {
    forall a | a in artifacts && IsDistribution(a) ::
      && (exists s | s in artifacts :: s.kind.Sdist? && s.name == a.name && s.version == a.version)
      && (exists w | w in artifacts :: w.kind.Wheel? && w.name == a.name && w.version == a.version)
  }

  predicate IsImage(a: Artifact) { a.kind.FirstPartyImage? || a.kind.ProviderImage? }

  /** No image artifact is listed twice with the same kind, name, version and digest. */
  predicate UniqueImages(artifacts: seq<Artifact>) {
    forall i, j | 0 <= i < j < |artifacts| && IsImage(artifacts[i]) :: artifacts[i] != artifacts[j]
  }

  /** Every rule of `validate_bom` on the commit and the artifacts. */
  predicate WellFormedBom(bom: Bom) {
    && HexText(bom.commit, 40)
    && (forall a | a in bom.artifacts :: WellShaped(a))
    && Paired(bom.artifacts)
    && Has(bom.artifacts, Source) && Has(bom.artifacts, SupportManifest)
    && Has(bom.artifacts, Sdist) && Has(bom.artifacts, Wheel)
    && Has(bom.artifacts, FirstPartyImage) && Has(bom.artifacts, ProviderImage)
    && UniqueImages(bom.artifacts)
  }

  /** What a SHA-256 in hex looks like. */
  predicate Sha256Text(s: string) { |s| == 64 && HexText(s, 64) }

  ghost predicate GivesSha256(sha: seq<Digest> -> Digest) { forall digests :: Sha256Text(sha(digests)) }

  /** `validate_bom`; `sha` is SHA-256 over the canonical text of the artifact digests in order. */
  predicate ValidBom(bom: Bom, sha: seq<Digest> -> Digest) {
    WellFormedBom(bom) && bom.canonical == sha(Digests(bom.artifacts))
  }

  // ------------------------------------------------------------------ selections

  function Select(artifacts: seq<Artifact>, p: Artifact -> bool): (r: seq<Artifact>)
    ensures forall a :: a in r <==> a in artifacts && p(a)
  {
    if artifacts == [] then []
    else (if p(artifacts[0]) then [artifacts[0]] else []) + Select(artifacts[1..], p)
  }

  function Distributions(bom: Bom): seq<Artifact> { Select(bom.artifacts, IsDistribution) }

  function Images(bom: Bom): seq<Artifact> { Select(bom.artifacts, (a: Artifact) => a.kind.FirstPartyImage?) }

  function Digests(artifacts: seq<Artifact>): (r: seq<Digest>)
    ensures |r| == |artifacts| && forall i | 0 <= i < |r| :: r[i] == artifacts[i].digest
  {
    seq(|artifacts|, i requires 0 <= i < |artifacts| => artifacts[i].digest)
  }

  /** The digest-keyed dictionary of staged files; of two equal files the later one stays. */
  function ByDigest(files: seq<File>): (m: map<Digest, File>)
    ensures forall d | d in m :: m[d] in files && m[d].digest == d
    ensures forall f | f in files :: f.digest in m
  {
    if files == [] then map[]
    else
      var last := files[|files| - 1];
      assert files == files[..|files| - 1] + [last];
      ByDigest(files[..|files| - 1])[last.digest := last]
  }

  // ------------------------------------------- verify_staged_distributions

  datatype StagingError = MissingFile | SharedFile | Uncovered | UnexpectedFile

  datatype Verified = Verified(paths: seq<File>) | Rejected(error: StagingError)

  /** The staged files are exactly the BOM's distributions, by digest, one digest each. */
  ghost predicate StagingMatches(bom: Bom, files: seq<File>) {
    && Elements(Digests(Distributions(bom))) == (set f | f in files :: f.digest)
    && Distinct(Digests(Distributions(bom)))
  }

  /** The file a distribution is published from. */
  function StagedFor(files: seq<File>, digest: Digest): File
    requires digest in ByDigest(files)
  {
    ByDigest(files)[digest]
  }

  lemma DigestPrefix(digests: seq<Digest>, i: nat)
    requires i < |digests| && Distinct(digests[..i])
    ensures Elements(digests[..i + 1]) == Elements(digests[..i]) + {digests[i]}
    ensures Distinct(digests[..i + 1]) <==> digests[i] !in Elements(digests[..i])
    ensures Distinct(digests) ==> Distinct(digests[..i + 1])
    ensures digests[i] in Elements(digests)
  {
    assert digests[..i + 1] == digests[..i] + [digests[i]];
    if digests[i] in digests[..i] {
      var k :| 0 <= k < i && digests[..i][k] == digests[i];
      assert digests[..i + 1][k] == digests[..i + 1][i];
    }
  }

  method VerifyStagedDistributions(bom: Bom, files: seq<File>) returns (r: Verified)
    ensures r.Verified? <==> StagingMatches(bom, files)
    ensures r.Verified? ==> |r.paths| == |Distributions(bom)|
    ensures r.Verified? ==> forall i | 0 <= i < |r.paths| ::
              r.paths[i] in files && r.paths[i].digest == Distributions(bom)[i].digest
  {
    hide Elements, Distinct, Distributions, ByDigest, Digests;
    var staged := ByDigest(files);
    var verified: seq<File> := [];
    var seen: set<Digest> := {};
    var listed := Distributions(bom);
    ghost var digests := Digests(listed);
    StagedKeys(files);
    NoDigests(digests);
    for i := 0 to |listed|
      invariant |verified| == i
      invariant seen == Elements(digests[..i]) && Distinct(digests[..i]) && |seen| == i
      invariant seen <= staged.Keys
      invariant forall k | 0 <= k < i :: verified[k] in files && verified[k].digest == digests[k]
    {
      var digest := listed[i].digest;
      DigestPrefix(digests, i);
      if digest !in staged {
        return Rejected(MissingFile);
      }
      if digest in seen {
        return Rejected(SharedFile);
      }
      seen := seen + {digest};
      verified := verified + [staged[digest]];
    }
    assert digests[..|listed|] == digests;
    if |seen| != |listed| {
      return Rejected(Uncovered);
    }
    if staged.Keys - seen != {} {
      return Rejected(UnexpectedFile);
    }
    r := Verified(verified);
  }

  lemma StagedKeys(files: seq<File>)
    ensures ByDigest(files).Keys == set f | f in files :: f.digest
  {
  }

  lemma NoDigests(digests: seq<Digest>)
    ensures Elements(digests[..0]) == {} && Distinct(digests[..0])
  {
  }
}
