/** What the candidate on disk turns into: the plan field by field, and what is public once a run
    has completed or a release has become final. */
module Candidates {
  import opened Options
  import opened Ordering
  import opened Staging
  import opened Publication
  import opened Promotion
  import opened PublishOrder
  import opened PromotionSteps
  import opened PromotionRuns
  import opened PromotionTheorems
  import opened Receipts

  // ------------------------------------------------------- the plan, field by field

  /** The selections keep the order of the BOM. */
  lemma {:induction false} SelectJoin(a: seq<Artifact>, b: seq<Artifact>, p: Artifact -> bool)
    ensures Select(a + b, p) == Select(a, p) + Select(b, p)
  {
    if a == [] {
      assert a + b == b;
    } else {
      SelectJoin(a[1..], b, p);
      assert (a + b)[0] == a[0] && (a + b)[1..] == a[1..] + b;
      var first := if p(a[0]) then [a[0]] else [];
      var rest, all := Select(a[1..], p), Select(a[1..] + b, p);
      assert Select(a, p) == first + rest && Select(a + b, p) == first + all;
      Associate(first, rest, Select(b, p));
      hide Select;
    }
  }

  lemma Associate(a: seq<Artifact>, b: seq<Artifact>, c: seq<Artifact>)
    ensures a + (b + c) == (a + b) + c
  {
  }

  lemma SelectOne(a: Artifact, p: Artifact -> bool)
    ensures Select([a], p) == if p(a) then [a] else []
  {
  }

  /** The release carries the BOM, every staged file and the archive, and nothing else. */
  lemma AssetsAreTheFiles(c: Candidate)
    requires ValidCandidate(c)
    ensures forall f :: f in PlanOf(c).assets <==> f == c.bomFile || f in c.files || c.archive == Some(f)
  {
    hide WellFormedBom, StagingMatches, Distributions, Images;
  }

  /** A sdist or wheel goes to PyPI under its own name and version, with the filename and the bytes
      of the staged file that has its digest. */
  ghost predicate Publishes(d: Dist, a: Artifact, files: seq<File>) {
    && d.key.project == a.name && d.key.version == a.version && d.digest == a.digest
    && exists f | f in files :: f.digest == a.digest && d.key.filename == f.name && d.uploaded == f.uploaded
  }

  /** The distributions of the plan are the BOM's sdists and wheels, one for one and in its order. */
  lemma DistsAreTheArtifacts(c: Candidate)
    requires StagingMatches(c.bom, c.files)
    ensures var plan, artifacts := PlanOf(c), Distributions(c.bom);
            |plan.dists| == |artifacts|
            && forall i | 0 <= i < |artifacts| :: Publishes(plan.dists[i], artifacts[i], c.files)
    ensures forall a :: a in Distributions(c.bom) <==> a in c.bom.artifacts && (a.kind.Sdist? || a.kind.Wheel?)
  {
    Listed(c.bom);
    hide StagingMatches, Distributions, Images, ByDigest, Publishes;
    var plan, artifacts := PlanOf(c), Distributions(c.bom);
    assert |plan.dists| == |artifacts| && forall i | 0 <= i < |artifacts| :: plan.dists[i] == DistOf(c, artifacts, i);
    forall i | 0 <= i < |artifacts| ensures Publishes(plan.dists[i], artifacts[i], c.files) {
      StagedFileOf(c, artifacts, i);
    }
  }

  lemma Listed(bom: Bom)
    ensures forall a :: a in Distributions(bom) <==> a in bom.artifacts && (a.kind.Sdist? || a.kind.Wheel?)
  {
  }

  lemma StagedFileOf(c: Candidate, artifacts: seq<Artifact>, i: nat)
    requires StagingMatches(c.bom, c.files) && artifacts == Distributions(c.bom) && i < |artifacts|
    ensures Publishes(DistOf(c, artifacts, i), artifacts[i], c.files)
  {
    hide Distributions;
    assert Digests(artifacts)[i] == artifacts[i].digest && artifacts[i].digest in Elements(Digests(artifacts));
    var g := StagedFor(c.files, artifacts[i].digest);
    assert g in c.files && g.digest == artifacts[i].digest;
  }

  /** The images are the BOM's first-party ones, by name and digest and in its order. */
  lemma ImagesAreTheArtifacts(c: Candidate)
    requires ValidCandidate(c)
    ensures var images := Images(c.bom);
            |PlanOf(c).images| == |images|
            && forall k | 0 <= k < |images| :: PlanOf(c).images[k] == ImageRef(images[k].name, images[k].digest)
    ensures forall i :: i in PlanOf(c).images <==>
              exists a | a in c.bom.artifacts ::
                a.kind.FirstPartyImage? && a.name == i.name && a.digest == i.digest
  {
    hide WellFormedBom, StagingMatches, Distributions;
    var plan, images := PlanOf(c), Images(c.bom);
    assert |plan.images| == |images|
           && forall k | 0 <= k < |images| :: plan.images[k] == ImageRef(images[k].name, images[k].digest);
    forall i | i in plan.images
      ensures exists a | a in c.bom.artifacts ::
                a.kind.FirstPartyImage? && a.name == i.name && a.digest == i.digest
    {
      var k :| 0 <= k < |images| && plan.images[k] == i;
      assert images[k] in images;
    }
    forall i: ImageRef, a | a in c.bom.artifacts && a.kind.FirstPartyImage? && a.name == i.name && a.digest == i.digest
      ensures i in plan.images
    {
      assert a in images;
      var k :| 0 <= k < |images| && images[k] == a;
      assert plan.images[k] == i;
    }
  }

  // --------------------------------------------------- what the public state holds

  /** A file the release must carry is there by name; under its digest, unless the candidate
      has another file of that name. */
  ghost predicate Holds(assets: map<string, Digest>, f: File, c: Candidate) {
    && f.name in assets
    && ((forall g | (g == c.bomFile || g in c.files || c.archive == Some(g)) && g.name == f.name ::
           g.digest == f.digest) ==>
          assets[f.name] == f.digest)
  }

  /** Of several files with one name the last one counts. */
  lemma {:induction false} LastOneCounts(assets: seq<File>, i: nat)
    requires i < |assets| && forall j | i < j < |assets| :: assets[j].name != assets[i].name
    ensures assets[i].name in Expected(assets) && Expected(assets)[assets[i].name] == assets[i].digest
    decreases |assets|
  {
    if i < |assets| - 1 { LastOneCounts(assets[..|assets| - 1], i); }
  }

  /** The archive is attached last, so its digest is the one that must be there. */
  lemma ArchiveCounts(c: Candidate)
    requires ValidCandidate(c) && c.archive.Some?
    ensures var expected, archive := Expected(PlanOf(c).assets), c.archive.value;
            archive.name in expected && expected[archive.name] == archive.digest
  {
    hide WellFormedBom, StagingMatches, Expected;
    var assets := PlanOf(c).assets;
    assert assets[|assets| - 1] == c.archive.value;
    LastOneCounts(assets, |assets| - 1);
  }

  lemma AttachedHolds(c: Candidate, release: Release)
    requires ValidCandidate(c) && AssetsAttached(release, Expected(PlanOf(c).assets))
    ensures Holds(release.assets, c.bomFile, c)
    ensures forall f | f in c.files :: Holds(release.assets, f, c)
    ensures c.archive.Some? ==>
              c.archive.value.name in release.assets
              && release.assets[c.archive.value.name] == c.archive.value.digest
  {
    hide WellFormedBom, StagingMatches, PlanOf, Expected;
    var assets := PlanOf(c).assets;
    if c.archive.Some? { ArchiveCounts(c); }
    AssetsAreTheFiles(c);
    ExpectedFacts(assets);
    forall f | f in assets ensures Holds(release.assets, f, c) {
      var g :| g in assets && g.name == f.name && g.digest == Expected(assets)[f.name];
    }
  }

  /** From an absent or draft release, whatever fails, a final release carries the BOM, each staged
      file and the archive. */
  lemma FinalReleaseCarriesAll(c: Candidate, x: External)
    requires ValidCandidate(c) && (x.world.release.Some? ==> x.world.release.value.draft)
    ensures var w := RunFrom(PlanOf(c), x).world;
            w.release.Some? && !w.release.value.draft ==>
              var assets := w.release.value.assets;
              && Holds(assets, c.bomFile, c)
              && (forall f | f in c.files :: Holds(assets, f, c))
              && (c.archive.Some? ==>
                    c.archive.value.name in assets && assets[c.archive.value.name] == c.archive.value.digest)
  {
    hide RunPlan, PlanOf, WellFormedBom, StagingMatches, Holds, Expected;
    PlanFacts(c);
    FinalOnlyWithAssets(PlanOf(c), x);
    var w := RunFrom(PlanOf(c), x).world;
    if w.release.Some? && !w.release.value.draft { AttachedHolds(c, w.release.value); }
  }

  /** The file of a sdist or wheel is on PyPI with its bytes. */
  ghost predicate OnPypiAs(a: Artifact, files: seq<File>, w: World) {
    exists f | f in files ::
      var key := PypiKey(a.name, a.version, f.name);
      f.digest == a.digest && key in w.pypi && w.pypi[key] == a.digest
  }

  /** After a run with four completed steps: the tag names the BOM's commit, each sdist and wheel is
      on PyPI, each first-party image is tagged and signed, and the final release carries each file. */
  lemma CompletedRunPublishesAll(c: Candidate, x: External)
    requires ValidCandidate(c)
    requires var r := RunPlan(PlanOf(c), true, x);
             r.Going? && |r.p.steps| == 4 && forall s | s in r.p.steps :: s.status == Completed
    ensures var w := RunFrom(PlanOf(c), x).world;
            && w.remoteTag == Some(c.bom.commit)
            && (forall a | a in c.bom.artifacts && (a.kind.Sdist? || a.kind.Wheel?) :: OnPypiAs(a, c.files, w))
            && (forall a | a in c.bom.artifacts && a.kind.FirstPartyImage? ::
                  a.name in w.images && w.images[a.name] == a.digest && (a.name, a.digest) in w.signed)
            && w.release.Some? && !w.release.value.draft
            && var assets := w.release.value.assets;
               && Holds(assets, c.bomFile, c)
               && (forall f | f in c.files :: Holds(assets, f, c))
               && (c.archive.Some? ==>
                     c.archive.value.name in assets && assets[c.archive.value.name] == c.archive.value.digest)
  {
    hide RunPlan, PlanOf, WellFormedBom, StagingMatches, Holds, Expected;
    var plan := PlanOf(c);
    PlanFacts(c);
    CompletedRunsAreDone(plan, x);
    var w := RunFrom(plan, x).world;
    AttachedHolds(c, w.release.value);
    DistsPublic(c, w);
    ImagesPublic(c, w);
  }

  lemma DistsPublic(c: Candidate, w: World)
    requires StagingMatches(c.bom, c.files) && OnPypi(PlanOf(c).dists, w)
    ensures forall a | a in c.bom.artifacts && (a.kind.Sdist? || a.kind.Wheel?) :: OnPypiAs(a, c.files, w)
  {
    hide StagingMatches, PlanOf, Distributions, Publishes, OnPypiAs;
    var plan, artifacts := PlanOf(c), Distributions(c.bom);
    DistsAreTheArtifacts(c);
    forall a | a in c.bom.artifacts && (a.kind.Sdist? || a.kind.Wheel?) ensures OnPypiAs(a, c.files, w) {
      var i :| 0 <= i < |artifacts| && artifacts[i] == a;
      assert plan.dists[i] in plan.dists;
      DistPublic(plan.dists[i], a, c.files, w);
    }
  }

  lemma DistPublic(d: Dist, a: Artifact, files: seq<File>, w: World)
    requires Publishes(d, a, files) && d.key in w.pypi && w.pypi[d.key] == d.digest
    ensures OnPypiAs(a, files, w)
  {
    var f :| f in files && f.digest == a.digest && d.key.filename == f.name;
    assert PypiKey(a.name, a.version, f.name) == d.key;
  }

  lemma ImagesPublic(c: Candidate, w: World)
    requires ValidCandidate(c) && ImagesUp(PlanOf(c).images, w)
    ensures forall a | a in c.bom.artifacts && a.kind.FirstPartyImage? ::
              a.name in w.images && w.images[a.name] == a.digest && (a.name, a.digest) in w.signed
  {
    hide WellFormedBom, StagingMatches, PlanOf;
    ImagesAreTheArtifacts(c);
    forall a | a in c.bom.artifacts && a.kind.FirstPartyImage?
      ensures a.name in w.images && w.images[a.name] == a.digest && (a.name, a.digest) in w.signed
    {
      assert ImageRef(a.name, a.digest) in PlanOf(c).images;
    }
  }

  // ---------------------------------------------------------------- dry-run receipts

  /** Reconciling steps of a dry run: only bounds count, nothing is read. */
  lemma {:induction false} UnreadSteps(plan: Plan, bom: Bom, steps: seq<StepResult>, x: External)
    requires forall s | s in steps :: s.status.Planned?
    ensures var r := ReconcileSteps(plan, bom, steps, false, x);
            && r.covered == BoundBy(steps)
            && (r.mismatches == 0 <==> forall s | s in steps :: Elements(s.bound) <= BomDigests(bom))
    decreases steps
  {
    hide BomDigests, Elements;
    if steps != [] {
      UnreadSteps(plan, bom, steps[1..], x);
      NothingLeftOut(Elements(steps[0].bound), BomDigests(bom));
      assert steps == [steps[0]] + steps[1..];
    }
  }

  lemma NothingLeftOut(a: set<Digest>, b: set<Digest>)
    ensures a - b == {} <==> a <= b
  {
    if a - b == {} {
      forall d | d in a ensures d in b { assert d !in a - b; }
    }
  }

  lemma DryRunBounds(plan: Plan, x: External)
    requires RunPlan(plan, false, x).Going?
    ensures BoundAsPlanned(plan, RunPlan(plan, false, x).p.steps)
  {
    hide DistDigests, ImageDigests;
  }

  /** A dry run reconciles exactly when a real publication would earn its receipt, whatever the
      world is like; its own receipt is no success. */
  lemma DryRunReconcilesIff(c: Candidate, x: External, y: External, hash: Receipt -> Digest)
    requires ValidCandidate(c) && RunPlan(PlanOf(c), false, x).Going?
    ensures var steps := RunPlan(PlanOf(c), false, x).p.steps;
            var matched := Matched(PlanOf(c), c.bom, steps, false, y);
            && (matched <==> SourceBound(c.bom))
            && var receipt := BuildReceipt(false, steps, matched, hash);
               receipt.status == DryRun && !receipt.success
  {
    hide RunPlan, PlanOf, WellFormedBom, StagingMatches, BomDigests, SourceBound, Receipts.Uncovered, BoundBy, Elements,
         ReconcileSteps;
    var plan := PlanOf(c);
    var steps := RunPlan(plan, false, x).p.steps;
    DryRunTouchesNothing(plan, x);
    DryRunBounds(plan, x);
    BoundDigests(plan, steps);
    UnreadSteps(plan, c.bom, steps, y);
    CoverageIff(c, plan, BoundBy(steps));
  }
}
