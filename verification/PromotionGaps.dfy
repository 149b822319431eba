/** Two candidates that pass every check made before publication and still go wrong: the
    concrete inputs behind the conditions in `PromotionTheorems` and `Receipts`. */
module PromotionGaps {
  import opened Options
  import opened Ordering
  import opened Staging
  import opened Publication
  import opened Promotion
  import opened PublishOrder
  import opened PromotionSteps
  import opened PromotionRuns
  import opened PromotionTheorems
  import opened Receipts

  function Hex(length: nat, c: char): Digest { seq(length, _ => c) }

  const API := "ghcr.io/phlohouse/phlo-api"
  const DAGSTER := "ghcr.io/phlohouse/phlo-dagster"
  const COMMIT := Hex(40, 'c')
  const SDIST := Artifact(Sdist, "phlo", "1.0.0", Hex(64, '1'))
  const WHEEL := Artifact(Wheel, "phlo", "1.0.0", Hex(64, '2'))
  const SDIST_FILE := FileOf("phlo-1.0.0.tar.gz", '1')
  const WHEEL_FILE := FileOf("phlo-1.0.0-py3-none-any.whl", '2')
  const FILES := [SDIST_FILE, WHEEL_FILE]
  const BOM_FILE := FileOf("bom.json", '3')
  const ARCHIVE := FileOf("qualification.tar.gz", '4')

  /** A file whose bytes stay what they were when checked. */
  function FileOf(name: string, c: char): File { File(name, Hex(64, c), Hex(64, c)) }

  function Listing(source: Digest, second: string): seq<Artifact> {
    [SDIST, WHEEL,
     Artifact(Source, "phlo", "1.0.0", source),
     Artifact(SupportManifest, "registry/support/v1.json", "1", Hex(64, '5')),
     Artifact(FirstPartyImage, API, "1.0.0", IMAGE_PREFIX + Hex(64, 'a')),
     Artifact(FirstPartyImage, second, "1.0.0", IMAGE_PREFIX + Hex(64, 'b')),
     Artifact(ProviderImage, "docker.io/library/postgres", "18", IMAGE_PREFIX + Hex(64, 'd'))]
  }

  /** The BOM of such a listing, with the canonical digest recomputed from it. */
  function BomOf(source: Digest, second: string, sha: seq<Digest> -> Digest): Bom {
    var all := Listing(source, second);
    Bom(COMMIT, sha(Digests(all)), all)
  }

  function CandidateWith(source: Digest, second: string, sha: seq<Digest> -> Digest): Candidate {
    Candidate(BomOf(source, second, sha), BOM_FILE, FILES, Some(ARCHIVE))
  }

  lemma {:induction false} SelectNone(artifacts: seq<Artifact>, p: Artifact -> bool)
    requires forall a | a in artifacts :: !p(a)
    ensures Select(artifacts, p) == []
  {
    if artifacts != [] {
      assert artifacts[0] in artifacts;
      SelectNone(artifacts[1..], p);
    }
  }

  lemma ListedDistributions(source: Digest, second: string)
    ensures Select(Listing(source, second), IsDistribution) == [SDIST, WHEEL]
  {
    hide Hex;
    var all := Listing(source, second);
    assert all == [SDIST, WHEEL] + all[2..];
    FirstTwo(all[2..]);
  }

  lemma FirstTwo(rest: seq<Artifact>)
    requires forall a | a in rest :: !IsDistribution(a)
    ensures Select([SDIST, WHEEL] + rest, IsDistribution) == [SDIST, WHEEL]
  {
    hide Hex;
    SelectNone(rest, IsDistribution);
    assert ([SDIST, WHEEL] + rest)[1..] == [WHEEL] + rest && ([WHEEL] + rest)[1..] == rest;
    assert Select([WHEEL] + rest, IsDistribution) == [WHEEL];
  }

  lemma HexIs(n: nat, c: char)
    requires IsHexDigit(c)
    ensures |Hex(n, c)| == n && HexText(Hex(n, c), n)
  {
  }

  lemma ImageIs(c: char)
    requires IsHexDigit(c)
    ensures ImageDigest(IMAGE_PREFIX + Hex(64, c))
  {
    hide Hex, HexText;
    HexIs(64, c);
    assert (IMAGE_PREFIX + Hex(64, c))[|IMAGE_PREFIX|..] == Hex(64, c);
  }

  lemma Differ(n: nat, a: char, b: char)
    requires n > 0 && a != b
    ensures Hex(n, a) != Hex(n, b) && IMAGE_PREFIX + Hex(n, a) != IMAGE_PREFIX + Hex(n, b)
  {
    assert Hex(n, a)[0] != Hex(n, b)[0];
    assert (IMAGE_PREFIX + Hex(n, a))[|IMAGE_PREFIX|] != (IMAGE_PREFIX + Hex(n, b))[|IMAGE_PREFIX|];
  }

  lemma ListingIsValid(source: Digest, second: string, sha: seq<Digest> -> Digest)
    requires HexText(source, 40) && second != ""
    ensures ValidBom(BomOf(source, second, sha), sha)
  {
    hide Hex, WellShaped, Has, Paired, UniqueImages, HexText;
    var all := Listing(source, second);
    UniqueListing(source, second, all);
    ListedShapes(source, second, all);
    ListedKinds(source, second, all);
    HexIs(40, 'c');
  }

  lemma ListedShapes(source: Digest, second: string, all: seq<Artifact>)
    requires HexText(source, 40) && second != "" && all == Listing(source, second)
    ensures forall a | a in all :: WellShaped(a)
  {
    hide Hex, HexText, ImageDigest;
    HexIs(64, '1');
    HexIs(64, '2');
    HexIs(64, '5');
    ImageIs('a');
    ImageIs('b');
    ImageIs('d');
  }

  lemma ListedKinds(source: Digest, second: string, all: seq<Artifact>)
    requires all == Listing(source, second)
    ensures Paired(all) && Has(all, Source) && Has(all, SupportManifest) && Has(all, Sdist) && Has(all, Wheel)
    ensures Has(all, FirstPartyImage) && Has(all, ProviderImage)
  {
    hide Hex, Has, Paired;
    assert |all| == 7;
    assert forall i | 2 <= i < 7 :: !IsDistribution(all[i]);
    ListedPairs(all);
    assert all[2].kind == Source && all[3].kind == SupportManifest;
    assert all[4].kind == FirstPartyImage && all[6].kind == ProviderImage;
    hide Listing, IsDistribution;
    HasAt(all, 0);
    HasAt(all, 1);
    HasAt(all, 2);
    HasAt(all, 3);
    HasAt(all, 4);
    HasAt(all, 6);
  }

  lemma HasAt(all: seq<Artifact>, i: nat)
    requires i < |all|
    ensures Has(all, all[i].kind)
  {
  }

  lemma ListedPairs(all: seq<Artifact>)
    requires |all| >= 2 && all[0] == SDIST && all[1] == WHEEL
    requires forall i | 2 <= i < |all| :: !IsDistribution(all[i])
    ensures Paired(all)
  {
    hide Hex;
    assert SDIST in all && WHEEL in all;
    forall a | a in all && IsDistribution(a) ensures a.name == SDIST.name && a.version == SDIST.version {
      var i :| 0 <= i < |all| && all[i] == a;
    }
  }

  lemma UniqueListing(source: Digest, second: string, all: seq<Artifact>)
    requires all == Listing(source, second)
    ensures UniqueImages(all)
  {
    hide Hex;
    Differ(64, 'a', 'b');
    assert all[6].kind != all[4].kind && all[6].kind != all[5].kind;
  }

  lemma FilesMatch(bom: Bom)
    requires Distributions(bom) == [SDIST, WHEEL]
    ensures StagingMatches(bom, FILES)
  {
    hide Distributions, Hex;
    Differ(64, '1', '2');
    assert Digests([SDIST, WHEEL]) == [Hex(64, '1'), Hex(64, '2')];
    assert FILES[0] in FILES && FILES[1] in FILES;
  }

  lemma CandidateIsValid(source: Digest, second: string, sha: seq<Digest> -> Digest)
    requires HexText(source, 40) && second != "" && GivesSha256(sha)
    ensures ValidCandidate(CandidateWith(source, second, sha))
    ensures ValidBom(CandidateWith(source, second, sha).bom, sha)
  {
    hide WellFormedBom, StagingMatches, Listing, HexText, Hex;
    var c := CandidateWith(source, second, sha);
    ListingIsValid(source, second, sha);
    ListedDistributions(source, second);
    FilesMatch(c.bom);
    HexIs(64, '3');
    HexIs(64, '4');
    assert |FILES[0].name| != |FILES[1].name|;
  }

  /** For every SHA-256: `validate_bom` accepts two first-party images with one name and two
      digests, and then some run replaces a public image tag. */
  lemma ValidBomAllowsImageClash(sha: seq<Digest> -> Digest) returns (c: Candidate)
    requires GivesSha256(sha)
    ensures ValidCandidate(c) && ValidBom(c.bom, sha) && c.archive.Some? && !ImagesAgree(PlanOf(c))
    ensures WellFormed(PlanOf(c))
    ensures exists x :: !ReplacesNothing(PlanOf(c), x)
  {
    hide Listing, Hex, ImagesAgree, ReplacesNothing, HexText, WellFormedBom, StagingMatches;
    c := CandidateWith(COMMIT, API, sha);
    HexIs(40, 'c');
    CandidateIsValid(COMMIT, API, sha);
    var a, b := ClashingPair();
    ClashingImages(c, a, b);
    PlanFacts(c);
    NothingReplacedIff(PlanOf(c));
  }

  lemma ClashingPair() returns (a: Artifact, b: Artifact)
    ensures a in Listing(COMMIT, API) && b in Listing(COMMIT, API)
    ensures a.kind.FirstPartyImage? && b.kind.FirstPartyImage? && a.name == b.name && a.digest != b.digest
  {
    hide Hex;
    var all := Listing(COMMIT, API);
    a, b := all[4], all[5];
    Differ(64, 'a', 'b');
    assert a in all && b in all;
  }

  lemma ClashingImages(c: Candidate, a: Artifact, b: Artifact)
    requires ValidCandidate(c) && a in c.bom.artifacts && b in c.bom.artifacts
    requires a.kind.FirstPartyImage? && b.kind.FirstPartyImage? && a.name == b.name && a.digest != b.digest
    ensures !ImagesAgree(PlanOf(c))
  {
    hide WellFormedBom, StagingMatches;
    var plan, images := PlanOf(c), Images(c.bom);
    assert a in images && b in images;
    var i :| 0 <= i < |images| && images[i] == a;
    var j :| 0 <= j < |images| && images[j] == b;
    assert plan.images[i] == ImageRef(a.name, a.digest) && plan.images[j] == ImageRef(b.name, b.digest);
  }

  lemma DifferentNames(source: Digest, sha: seq<Digest> -> Digest)
    requires HexText(source, 40) && GivesSha256(sha)
    ensures var c := CandidateWith(source, DAGSTER, sha); ValidCandidate(c) && Publishable(PlanOf(c))
  {
    hide WellFormedBom, StagingMatches, Listing, HexText;
    var c := CandidateWith(source, DAGSTER, sha);
    CandidateIsValid(source, DAGSTER, sha);
    ListedDistributions(source, DAGSTER);
    var plan := PlanOf(c);
    assert StableDists(plan.dists) by {
      forall i | 0 <= i < |plan.dists| ensures plan.dists[i].uploaded == plan.dists[i].digest {
        StagedAsChecked(c, Distributions(c.bom), i);
      }
    }
    ImagesApart(c, source, sha);
    AssetNames(plan);
  }

  lemma StagedAsChecked(c: Candidate, artifacts: seq<Artifact>, i: nat)
    requires StagingMatches(c.bom, c.files) && artifacts == Distributions(c.bom) && i < |artifacts|
    requires forall f | f in c.files :: f.uploaded == f.digest
    ensures DistOf(c, artifacts, i).uploaded == DistOf(c, artifacts, i).digest
  {
    hide Distributions;
    var a := artifacts[i];
    assert Digests(artifacts)[i] == a.digest && a.digest in Elements(Digests(artifacts));
    assert ByDigest(c.files)[a.digest] in c.files && ByDigest(c.files)[a.digest].digest == a.digest;
  }

  lemma AssetNames(plan: Plan)
    requires plan.assets == [BOM_FILE] + FILES + [ARCHIVE]
    ensures DistinctNames(plan.assets) && StableAssets(plan.assets)
  {
    hide Hex;
    var files := plan.assets;
    assert files == [BOM_FILE, SDIST_FILE, WHEEL_FILE, ARCHIVE];
    forall f | f in files ensures f.uploaded == f.digest {
      var i :| 0 <= i < 4 && files[i] == f;
    }
    assert |files[0].name| < |files[1].name| < |files[3].name| < |files[2].name|;
  }

  lemma ImagesApart(c: Candidate, source: Digest, sha: seq<Digest> -> Digest)
    requires c == CandidateWith(source, DAGSTER, sha) && ValidCandidate(c)
    ensures ImagesAgree(PlanOf(c))
  {
    hide WellFormedBom, StagingMatches, Hex, Listing, Select, HexText;
    var images := Images(c.bom);
    assert PlanOf(c).images ==
           seq(|images|, i requires 0 <= i < |images| => ImageRef(images[i].name, images[i].digest));
    forall a, b | a in images && b in images && a.name == b.name ensures a.digest == b.digest {
      ListedImages(source, a);
      ListedImages(source, b);
      assert |API| != |DAGSTER|;
    }
  }

  lemma ListedImages(source: Digest, a: Artifact)
    requires a in Select(Listing(source, DAGSTER), (a: Artifact) => a.kind.FirstPartyImage?)
    ensures a == Listing(source, DAGSTER)[4] || a == Listing(source, DAGSTER)[5]
    ensures Listing(source, DAGSTER)[4].name == API && Listing(source, DAGSTER)[5].name == DAGSTER
  {
    hide Hex, Select;
    var all := Listing(source, DAGSTER);
    assert a in all;
    var i :| 0 <= i < |all| && all[i] == a;
  }

  /** For every SHA-256: `validate_bom` accepts a source artifact that names another commit than
      the release commit. Such a publication can complete, from an empty world for one, and no run
      and no reconciliation, faulty or not, ever earns it a promoted receipt. */
  lemma ValidBomAllowsForeignSource(sha: seq<Digest> -> Digest) returns (c: Candidate)
    requires GivesSha256(sha)
    ensures ValidCandidate(c) && ValidBom(c.bom, sha) && c.archive.Some?
    ensures !SourceBound(c.bom) && Publishable(PlanOf(c))
    ensures Completes(PlanOf(c), World(None, None, map[], map[], {}, None))
    ensures forall x, y :: !EarnsPromotion(c, x, y)
  {
    hide Completes, WellFormedBom, StagingMatches, Publishable, Listing, EarnsPromotion, PlanOf, Conforms, SourceBound,
         HexText, Hex;
    var foreign := Hex(40, 'f');
    HexIs(40, 'f');
    c := CandidateWith(foreign, DAGSTER, sha);
    CandidateIsValid(foreign, DAGSTER, sha);
    DifferentNames(foreign, sha);
    ForeignSource(sha);
    PlanFacts(c);
    CompletesFromNothing(PlanOf(c));
    forall x, y ensures !EarnsPromotion(c, x, y) { NeverPromoted(c, x, y); }
  }

  lemma CompletesFromNothing(plan: Plan)
    requires WellFormed(plan) && Publishable(plan)
    ensures Completes(plan, World(None, None, map[], map[], {}, None))
  {
    hide Completes, Publishable, WellFormed;
    CompletesIffPublishable(plan);
    assert Conforms(plan, World(None, None, map[], map[], {}, None));
  }

  /** A run against `x`, reconciled against `y`, whose receipt says promoted. */
  ghost predicate EarnsPromotion(c: Candidate, x: External, y: External)
    requires ValidCandidate(c)
  {
    var r := RunPlan(PlanOf(c), true, x);
    r.Going? && StatusOf(true, r.p.steps, Matched(PlanOf(c), c.bom, r.p.steps, true, y)).Promoted?
  }

  lemma NeverPromoted(c: Candidate, x: External, y: External)
    requires ValidCandidate(c) && !SourceBound(c.bom)
    ensures !EarnsPromotion(c, x, y)
  {
    hide RunPlan, PlanOf, SourceBound, ValidCandidate, Matched, StatusOf;
    if EarnsPromotion(c, x, y) { PromotedNeedsSourceBound(c, x, y); }
  }

  lemma ForeignSource(sha: seq<Digest> -> Digest)
    ensures !SourceBound(CandidateWith(Hex(40, 'f'), DAGSTER, sha).bom)
  {
    hide Hex;
    var c := CandidateWith(Hex(40, 'f'), DAGSTER, sha);
    var source := c.bom.artifacts[2];
    Differ(40, 'f', 'c');
    assert source in c.bom.artifacts;
  }
}
