/** The loops of `validate_bom`, proved against the rules stated in `Staging`, and what the pair rule
    does not say. */
module BomValidation {
  import opened Options
  import opened Ordering
  import opened Staging

  datatype BomError =
    | BadCommit | NoArtifacts | BadArtifact(at: nat) | Unpaired(name: string, version: string) | MissingKind(kind: Kind)
    | DuplicateImages | WrongCanonical

  type Package = (string, string)

  /** The package has a distribution of this kind. */
  predicate Lists(artifacts: seq<Artifact>, kind: Kind, package: Package) {
    exists a | a in artifacts :: a.kind == kind && (a.name, a.version) == package
  }

  lemma ListsOneMore(artifacts: seq<Artifact>, a: Artifact, kind: Kind, package: Package)
    ensures Lists(artifacts + [a], kind, package) <==>
            Lists(artifacts, kind, package) || (a.kind == kind && (a.name, a.version) == package)
  {
    assert forall b :: b in artifacts + [a] <==> b in artifacts || b == a;
  }

  lemma PairedByKind(artifacts: seq<Artifact>)
    ensures Paired(artifacts) <==>
            forall package: Package :: Lists(artifacts, Sdist, package) <==> Lists(artifacts, Wheel, package)
  {
    if Paired(artifacts) {
      forall package: Package ensures Lists(artifacts, Sdist, package) <==> Lists(artifacts, Wheel, package) {
        if a :| a in artifacts && IsDistribution(a) && (a.name, a.version) == package {
          var s :| s in artifacts && s.kind.Sdist? && s.name == a.name && s.version == a.version;
          var w :| w in artifacts && w.kind.Wheel? && w.name == a.name && w.version == a.version;
        }
      }
    }
    if forall package: Package :: Lists(artifacts, Sdist, package) <==> Lists(artifacts, Wheel, package) {
      forall a | a in artifacts && IsDistribution(a) ensures BothThere(artifacts, a) { ListedBoth(artifacts, a); }
    }
  }

  predicate BothThere(artifacts: seq<Artifact>, a: Artifact) {
    && (exists s | s in artifacts :: s.kind.Sdist? && s.name == a.name && s.version == a.version)
    && (exists w | w in artifacts :: w.kind.Wheel? && w.name == a.name && w.version == a.version)
  }

  lemma ListedBoth(artifacts: seq<Artifact>, a: Artifact)
    requires a in artifacts && IsDistribution(a)
    requires Lists(artifacts, Sdist, (a.name, a.version)) <==> Lists(artifacts, Wheel, (a.name, a.version))
    ensures BothThere(artifacts, a)
  {
    var s :| s in artifacts && s.kind == Sdist && (s.name, s.version) == (a.name, a.version);
    var w :| w in artifacts && w.kind == Wheel && (w.name, w.version) == (a.name, a.version);
  }

  /** The dictionary holds, for each package with a distribution, the kinds listed. */
  ghost predicate Collected(found: map<Package, set<Kind>>, artifacts: seq<Artifact>) {
    && (forall k | k in found :: found[k] != {} && found[k] <= {Sdist, Wheel})
    && forall k: Package ::
         && (Lists(artifacts, Sdist, k) <==> k in found && Sdist in found[k])
         && (Lists(artifacts, Wheel, k) <==> k in found && Wheel in found[k])
  }

  lemma CollectedOneMore(found: map<Package, set<Kind>>, artifacts: seq<Artifact>, a: Artifact)
    requires Collected(found, artifacts)
    ensures var k := (a.name, a.version);
            Collected(if a.kind.Sdist? || a.kind.Wheel?
                      then found[k := (if k in found then found[k] else {}) + {a.kind}] else found, artifacts + [a])
  {
    hide Lists;
    forall k: Package, kind
      ensures Lists(artifacts + [a], kind, k) <==>
              Lists(artifacts, kind, k) || (a.kind == kind && (a.name, a.version) == k)
    {
      ListsOneMore(artifacts, a, kind, k);
    }
  }

  lemma PairedIff(found: map<Package, set<Kind>>, artifacts: seq<Artifact>)
    requires Collected(found, artifacts)
    ensures Paired(artifacts) <==> forall k | k in found :: found[k] == {Sdist, Wheel}
  {
    PairedByKind(artifacts);
    hide Paired, Lists;
    if Paired(artifacts) {
      forall k | k in found ensures found[k] == {Sdist, Wheel} {
        var kind :| kind in found[k];
        assert Lists(artifacts, Sdist, k) <==> Lists(artifacts, Wheel, k);
      }
    }
  }

  lemma NothingCollected()
    ensures Collected(map[], [])
  {
  }

  lemma CollectedIsListed(found: map<Package, set<Kind>>, artifacts: seq<Artifact>, k: Package)
    requires Collected(found, artifacts) && k in found
    ensures exists a | a in artifacts :: IsDistribution(a) && (a.name, a.version) == k
  {
    var kind :| kind in found[k];
    assert Lists(artifacts, kind, k);
    var a :| a in artifacts && a.kind == kind && (a.name, a.version) == k;
  }

  /** `_validate_distribution_pairs`. */
  method ValidateDistributionPairs(artifacts: seq<Artifact>) returns (unpaired: Option<Package>)
    ensures unpaired.None? <==> Paired(artifacts)
    ensures unpaired.Some? ==>
              exists a | a in artifacts :: IsDistribution(a) && (a.name, a.version) == unpaired.value
  {
    hide Collected, Paired;
    var found: map<Package, set<Kind>> := map[];
    NothingCollected();
    assert artifacts[..0] == [];
    for i := 0 to |artifacts|
      invariant Collected(found, artifacts[..i])
    {
      var a := artifacts[i];
      var key := (a.name, a.version);
      CollectedOneMore(found, artifacts[..i], a);
      assert artifacts[..i + 1] == artifacts[..i] + [a];
      if a.kind.Sdist? || a.kind.Wheel? {
        found := found[key := (if key in found then found[key] else {}) + {a.kind}];
      }
    }
    assert artifacts[..|artifacts|] == artifacts;
    PairedIff(found, artifacts);
    var rest := found.Keys;
    while rest != {}
      invariant rest <= found.Keys && forall k | k in found && k !in rest :: found[k] == {Sdist, Wheel}
      decreases rest
    {
      var key :| key in rest;
      if found[key] != {Sdist, Wheel} {
        CollectedIsListed(found, artifacts, key);
        return Some(key);
      }
      rest := rest - {key};
    }
    return None;
  }

  /** The image entries, all of whose fields identify them. */
  function ImageEntries(artifacts: seq<Artifact>): (r: seq<Artifact>)
    ensures forall a :: a in r <==> a in artifacts && IsImage(a)
  {
    Select(artifacts, IsImage)
  }

  lemma {:induction false} UniqueIff(artifacts: seq<Artifact>)
    ensures UniqueImages(artifacts) <==> Distinct(ImageEntries(artifacts))
  {
    if artifacts != [] {
      var a, rest := artifacts[0], artifacts[1..];
      UniqueIff(rest);
      assert forall i | 0 < i < |artifacts| :: artifacts[i] == rest[i - 1];
      assert ImageEntries(artifacts) == (if IsImage(a) then [a] else []) + ImageEntries(rest);
      if UniqueImages(artifacts) && IsImage(a) {
        forall b | b in ImageEntries(rest) ensures b != a {
          var i :| 0 <= i < |rest| && rest[i] == b;
          assert artifacts[i + 1] == b;
        }
      }
      if Distinct(ImageEntries(artifacts)) {
        TailDistinct(ImageEntries(artifacts), if IsImage(a) then 1 else 0);
        if IsImage(a) {
          HeadApart(ImageEntries(artifacts));
          forall j | 0 < j < |artifacts| ensures artifacts[j] != a { assert artifacts[j] == rest[j - 1]; }
        }
      }
    }
  }

  lemma HeadApart(s: seq<Artifact>)
    requires s != [] && Distinct(s)
    ensures s[0] !in s[1..]
  {
  }

  lemma TailDistinct(s: seq<Artifact>, n: nat)
    requires n <= |s| && Distinct(s)
    ensures Distinct(s[n..])
  {
  }

  /** `_validate_unique_images`. */
  method ValidateUniqueImages(artifacts: seq<Artifact>) returns (unique: bool)
    ensures unique <==> UniqueImages(artifacts)
  {
    var identities := ImageEntries(artifacts);
    UniqueIff(artifacts);
    CountDistinct(identities);
    unique := |identities| == |Elements(identities)|;
  }

  const REQUIRED_KINDS: seq<Kind> := [Source, SupportManifest, Sdist, Wheel, FirstPartyImage, ProviderImage]

  /** `validate_bom`: the first rule that fails is reported. */
  method ValidateBom(bom: Bom, sha: seq<Digest> -> Digest) returns (error: Option<BomError>)
    ensures error.None? <==> ValidBom(bom, sha)
    ensures error.Some? ==>
              match error.value
              case BadCommit => !HexText(bom.commit, 40)
              case NoArtifacts => bom.artifacts == []
              case BadArtifact(i) => i < |bom.artifacts| && !WellShaped(bom.artifacts[i])
              case Unpaired(name, version) =>
                exists a | a in bom.artifacts :: IsDistribution(a) && a.name == name && a.version == version
              case MissingKind(kind) => kind !in (set a | a in bom.artifacts :: a.kind)
              case DuplicateImages =>
                exists i, j | 0 <= i < j < |bom.artifacts| ::
                  IsImage(bom.artifacts[i]) && bom.artifacts[i] == bom.artifacts[j]
              case WrongCanonical => bom.canonical != sha(Digests(bom.artifacts))
  {
    hide HexText, WellShaped, Paired, UniqueImages;
    if !HexText(bom.commit, 40) { return Some(BadCommit); }
    if bom.artifacts == [] { return Some(NoArtifacts); }
    for i := 0 to |bom.artifacts|
      invariant forall a | a in bom.artifacts[..i] :: WellShaped(a)
    {
      if !WellShaped(bom.artifacts[i]) { return Some(BadArtifact(i)); }
      assert bom.artifacts[..i + 1] == bom.artifacts[..i] + [bom.artifacts[i]];
    }
    assert bom.artifacts[..|bom.artifacts|] == bom.artifacts;
    var unpaired := ValidateDistributionPairs(bom.artifacts);
    if unpaired.Some? { return Some(Unpaired(unpaired.value.0, unpaired.value.1)); }
    for i := 0 to |REQUIRED_KINDS|
      invariant forall k | 0 <= k < i :: Has(bom.artifacts, REQUIRED_KINDS[k])
    {
      if REQUIRED_KINDS[i] !in (set a | a in bom.artifacts :: a.kind) { return Some(MissingKind(REQUIRED_KINDS[i])); }
    }
    AllKinds(bom.artifacts);
    var unique := ValidateUniqueImages(bom.artifacts);
    if !unique {
      Repeated(bom.artifacts);
      return Some(DuplicateImages);
    }
    if bom.canonical != sha(Digests(bom.artifacts)) { return Some(WrongCanonical); }
    return None;
  }

  lemma AllKinds(artifacts: seq<Artifact>)
    requires forall k | 0 <= k < |REQUIRED_KINDS| :: Has(artifacts, REQUIRED_KINDS[k])
    ensures Has(artifacts, Source) && Has(artifacts, SupportManifest) && Has(artifacts, Sdist) && Has(artifacts, Wheel)
    ensures Has(artifacts, FirstPartyImage) && Has(artifacts, ProviderImage)
  {
    assert REQUIRED_KINDS[0] == Source && REQUIRED_KINDS[1] == SupportManifest && REQUIRED_KINDS[2] == Sdist;
    assert REQUIRED_KINDS[3] == Wheel && REQUIRED_KINDS[4] == FirstPartyImage && REQUIRED_KINDS[5] == ProviderImage;
  }

  lemma Repeated(artifacts: seq<Artifact>)
    requires !UniqueImages(artifacts)
    ensures exists i, j | 0 <= i < j < |artifacts| :: IsImage(artifacts[i]) && artifacts[i] == artifacts[j]
  {
  }

  // ------------------------------------------------------------- what the patterns accept

  /** `n` of the sixteen lower-case hex digits. */
  predicate Hexadecimal(s: string, n: nat) { |s| == n && forall c | c in s :: c in "0123456789abcdef" }

  /** Python's `$` also matches before a last newline, so the patterns let one through. */
  ghost predicate MatchesHex(s: string, n: nat) {
    Hexadecimal(s, n) || exists t :: s == t + "\n" && Hexadecimal(t, n)
  }

  lemma HexDigitIff(c: char)
    ensures IsHexDigit(c) <==> c in "0123456789abcdef"
  {
    if '0' <= c <= '9' { assert c in "0123456789"; }
    if 'a' <= c <= 'f' { assert c in "abcdef"; }
    assert "0123456789abcdef" == "0123456789" + "abcdef";
  }

  lemma HexTextIff(s: string, n: nat)
    ensures HexText(s, n) <==> MatchesHex(s, n)
  {
    hide IsHexDigit;
    forall c ensures IsHexDigit(c) <==> c in "0123456789abcdef" { HexDigitIff(c); }
    if HexText(s, n) {
      if |s| == n + 1 {
        assert s == s[..n] + "\n";
        assert Hexadecimal(s[..n], n);
      } else {
        assert Hexadecimal(s, n);
      }
    }
  }

  /** An entry is accepted exactly when nothing in it is empty and its digest is a commit id, a
      SHA-256 or an image digest, as its kind asks. */
  lemma WellShapedIff(a: Artifact)
    ensures WellShaped(a) <==>
            && a.name != "" && a.version != ""
            && (a.kind == Source ==> MatchesHex(a.digest, 40))
            && (a.kind == Sdist || a.kind == Wheel || a.kind == SupportManifest ==> MatchesHex(a.digest, 64))
            && (a.kind == FirstPartyImage || a.kind == ProviderImage ==>
                  exists t :: a.digest == "sha256:" + t && MatchesHex(t, 64))
  {
    hide HexText, MatchesHex;
    HexTextIff(a.digest, 40);
    HexTextIff(a.digest, 64);
    forall t ensures HexText(t, 64) <==> MatchesHex(t, 64) { HexTextIff(t, 64); }
    if IMAGE_PREFIX <= a.digest { assert a.digest == "sha256:" + a.digest[|IMAGE_PREFIX|..]; }
    forall t | a.digest == "sha256:" + t ensures a.digest[|IMAGE_PREFIX|..] == t {}
  }

  // ---------------------------------------------------- one of each, or at least one

  /** No two distributions of one kind share a name and version. */
  ghost predicate NoSecond(artifacts: seq<Artifact>) {
    forall i, j | 0 <= i < j < |artifacts| && IsDistribution(artifacts[i]) && artifacts[i].kind == artifacts[j].kind ::
      artifacts[i].name != artifacts[j].name || artifacts[i].version != artifacts[j].version
  }

  /** The place is the one of `kind` for this name and version. */
  ghost predicate OnlyAt(artifacts: seq<Artifact>, i: nat, kind: Kind, name: string, version: string) {
    && i < |artifacts|
    && forall j | 0 <= j < |artifacts| ::
         artifacts[j].kind == kind && artifacts[j].name == name && artifacts[j].version == version <==> j == i
  }

  ghost predicate OneOfEach(artifacts: seq<Artifact>) {
    forall a | a in artifacts && IsDistribution(a) ::
      && (exists i: nat :: OnlyAt(artifacts, i, Sdist, a.name, a.version))
      && (exists i: nat :: OnlyAt(artifacts, i, Wheel, a.name, a.version))
  }

  /** The pair rule's message asks for exactly one sdist and one wheel; the rule gives that exactly
      when no second distribution of a kind is listed. */
  lemma OneOfEachIff(artifacts: seq<Artifact>)
    ensures OneOfEach(artifacts) <==> Paired(artifacts) && NoSecond(artifacts)
  {
    if OneOfEach(artifacts) {
      forall a | a in artifacts && IsDistribution(a)
        ensures exists s | s in artifacts :: s.kind.Sdist? && s.name == a.name && s.version == a.version
        ensures exists w | w in artifacts :: w.kind.Wheel? && w.name == a.name && w.version == a.version
      {
        var i: nat :| OnlyAt(artifacts, i, Sdist, a.name, a.version);
        var j: nat :| OnlyAt(artifacts, j, Wheel, a.name, a.version);
        assert artifacts[i] in artifacts && artifacts[j] in artifacts;
      }
      forall i, j | 0 <= i < j < |artifacts| && IsDistribution(artifacts[i]) && artifacts[i].kind == artifacts[j].kind
        ensures artifacts[i].name != artifacts[j].name || artifacts[i].version != artifacts[j].version
      {
        var a := artifacts[i];
        var s: nat :| OnlyAt(artifacts, s, Sdist, a.name, a.version);
        var w: nat :| OnlyAt(artifacts, w, Wheel, a.name, a.version);
      }
    }
    if Paired(artifacts) && NoSecond(artifacts) {
      forall a | a in artifacts && IsDistribution(a)
        ensures exists i: nat :: OnlyAt(artifacts, i, Sdist, a.name, a.version)
        ensures exists i: nat :: OnlyAt(artifacts, i, Wheel, a.name, a.version)
      {
        var s :| s in artifacts && s.kind.Sdist? && s.name == a.name && s.version == a.version;
        var w :| w in artifacts && w.kind.Wheel? && w.name == a.name && w.version == a.version;
        OnlyOne(artifacts, s);
        OnlyOne(artifacts, w);
      }
    }
  }

  lemma OnlyOne(artifacts: seq<Artifact>, a: Artifact)
    requires NoSecond(artifacts) && a in artifacts && IsDistribution(a)
    ensures exists i: nat :: OnlyAt(artifacts, i, a.kind, a.name, a.version)
  {
    var i :| 0 <= i < |artifacts| && artifacts[i] == a;
    forall j | 0 <= j < |artifacts|
      ensures artifacts[j].kind == a.kind && artifacts[j].name == a.name && artifacts[j].version == a.version <==>
              j == i
    {
      if j < i { assert artifacts[j] != a || IsDistribution(artifacts[j]); }
    }
    assert OnlyAt(artifacts, i, a.kind, a.name, a.version);
  }

  /** Any valid BOM stays valid with a second sdist of a package it lists. */
  lemma SecondSdistStaysValid(bom: Bom, first: Artifact, digest: Digest, sha: seq<Digest> -> Digest)
    requires ValidBom(bom, sha) && first in bom.artifacts && first.kind.Sdist? && HexText(digest, 64)
    ensures var all := bom.artifacts + [Artifact(Sdist, first.name, first.version, digest)];
            ValidBom(Bom(bom.commit, sha(Digests(all)), all), sha) && !OneOfEach(all)
  {
    hide HexText, Digests, OneOfEach, Paired, UniqueImages, Has, ImageDigest;
    var second := Artifact(Sdist, first.name, first.version, digest);
    var all := bom.artifacts + [second];
    TwoOfAKind(bom.artifacts, first, second);
    KindsGrow(bom.artifacts, second);
    PairsGrow(bom.artifacts, first, second);
    ImagesStay(bom.artifacts, second);
    assert forall a | a in all :: a in bom.artifacts || a == second;
  }

  lemma TwoOfAKind(artifacts: seq<Artifact>, first: Artifact, second: Artifact)
    requires first in artifacts && IsDistribution(first) && first.kind == second.kind
    requires second.name == first.name && second.version == first.version
    ensures !OneOfEach(artifacts + [second])
  {
    var all := artifacts + [second];
    var i :| 0 <= i < |artifacts| && artifacts[i] == first;
    assert all[i] == first && all[|artifacts|] == second;
    OneOfEachIff(all);
    hide OneOfEach, Paired;
  }

  lemma KindsGrow(artifacts: seq<Artifact>, second: Artifact)
    ensures forall kind | Has(artifacts, kind) :: Has(artifacts + [second], kind)
  {
    assert forall a | a in artifacts :: a in artifacts + [second];
  }

  lemma PairsGrow(artifacts: seq<Artifact>, first: Artifact, second: Artifact)
    requires Paired(artifacts) && first in artifacts && first.kind == second.kind
    requires second.name == first.name && second.version == first.version
    ensures Paired(artifacts + [second])
  {
    PairedByKind(artifacts);
    PairedByKind(artifacts + [second]);
    hide Paired;
    assert Lists(artifacts, first.kind, (first.name, first.version));
    hide Lists;
    forall kind, package: Package
      ensures Lists(artifacts + [second], kind, package) <==> Lists(artifacts, kind, package)
    {
      ListsOneMore(artifacts, second, kind, package);
    }
  }

  lemma ImagesStay(artifacts: seq<Artifact>, second: Artifact)
    requires UniqueImages(artifacts) && !IsImage(second)
    ensures UniqueImages(artifacts + [second])
  {
  }
}
