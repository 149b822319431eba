/** Reconciling a promotion with the public state, and the receipt it earns. */
module Receipts {
  import opened Options
  import opened Ordering
  import opened Staging
  import opened Publication
  import opened Promotion
  import opened PublishOrder
  import opened PromotionSteps
  import opened PromotionRuns
  import opened PromotionTheorems
  import opened Convergence

  // -------------------------------------------------------------- reconciliation

  predicate Published(s: StepResult) { s.status.Completed? || s.status.Planned? }

  /** Does the public state confirm this step? Reads may fail. */
  function VerifyPublicStep(plan: Plan, s: StepResult, x: External): Checked {
    if !s.status.Completed? then Checked(false, x)
    else
      match s.id
      case ReleaseTag =>
        var read := Read(x);
        Checked(read.ok && Tagged(plan, x.world), read.x)
      case PypiPublish => PublishedDists(plan.dists, x)
      case ImagePromotion => PublishedImages(plan.images, x)
      case ReleaseFinalisation =>
        var read := Read(x);
        Checked(read.ok && x.world.release.Some? && !x.world.release.value.draft && plan.assets != []
                && AssetsAttached(x.world.release.value, Expected(plan.assets)), read.x)
  }

  /** Every digest a step is bound to must be one the BOM knows. */
  function BomDigests(bom: Bom): set<Digest> {
    (set a | a in bom.artifacts :: a.digest) + {bom.canonical}
  }

  predicate NeedsPublication(a: Artifact) { a.kind.Source? || IsDistribution(a) || a.kind.FirstPartyImage? }

  datatype Reconciliation = Reconciliation(mismatches: nat, covered: set<Digest>, x: External)

  /** The walk over the recorded steps, counting mismatches. */
  function ReconcileSteps(plan: Plan, bom: Bom, steps: seq<StepResult>, executing: bool, x: External): Reconciliation {
    if steps == [] then Reconciliation(0, {}, x)
    else
      var s := steps[0];
      if !Published(s) then
        var rest := ReconcileSteps(plan, bom, steps[1..], executing, x);
        rest.(mismatches := rest.mismatches + 1)
      else
        var public := if executing then VerifyPublicStep(plan, s, x) else Checked(true, x);
        var unbound := Elements(s.bound) - BomDigests(bom);
        var rest := ReconcileSteps(plan, bom, steps[1..], executing, public.x);
        Reconciliation(rest.mismatches + (if public.ok then 0 else 1) + (if unbound == {} then 0 else 1),
                       rest.covered + Elements(s.bound), rest.x)
  }

  predicate Uncovered(bom: Bom, covered: set<Digest>) {
    exists a | a in bom.artifacts :: NeedsPublication(a) && a.digest !in covered
  }

  predicate Matched(plan: Plan, bom: Bom, steps: seq<StepResult>, executing: bool, x: External) {
    var r := ReconcileSteps(plan, bom, steps, executing, x);
    r.mismatches == 0 && !Uncovered(bom, r.covered)
  }

  /** The loop over the steps, in order, with its three accumulators. */
  method Reconcile(plan: Plan, bom: Bom, steps: seq<StepResult>, executing: bool, start: External)
    returns (matched: bool)
    ensures matched == Matched(plan, bom, steps, executing, start)
  {
    var mismatches: nat, covered: set<Digest>, x := 0, {}, start;
    ghost var goal := ReconcileSteps(plan, bom, steps, executing, start);
    for k := 0 to |steps|
      invariant var rest := ReconcileSteps(plan, bom, steps[k..], executing, x);
                goal.mismatches == mismatches + rest.mismatches && goal.covered == covered + rest.covered
    {
      var s := steps[k];
      assert steps[k..][1..] == steps[k + 1..];
      if !Published(s) {
        mismatches := mismatches + 1;
      } else {
        if executing {
          var public := VerifyPublicStep(plan, s, x);
          x := public.x;
          if !public.ok { mismatches := mismatches + 1; }
        }
        covered := covered + Elements(s.bound);
        if Elements(s.bound) - BomDigests(bom) != {} { mismatches := mismatches + 1; }
      }
    }
    if Uncovered(bom, covered) { mismatches := mismatches + 1; }
    matched := mismatches == 0;
  }

  // ------------------------------------------------------------------- receipts

  /** A receipt read from disk may carry any status text. */
  datatype ReceiptStatus = Promoted | PartialPublication | DryRun | Other(text: string)

  datatype Receipt = Receipt(schema: string, publishing: bool, steps: seq<StepResult>, matched: bool,
                             status: ReceiptStatus, success: bool, checksum: Digest)

  const RECEIPT_SCHEMA := "phlo.release-promotion-receipt/v1"

  predicate AllStepsDone(steps: seq<StepResult>) { forall s | s in steps :: Published(s) }

  function StatusOf(publishing: bool, steps: seq<StepResult>, matched: bool): ReceiptStatus {
    if !publishing then DryRun
    else if AllStepsDone(steps) && matched && |steps| == 4 then Promoted
    else PartialPublication
  }

  /** `hash` stands for SHA-256 over the receipt's canonical content without the checksum. */
  function BuildReceipt(publishing: bool, steps: seq<StepResult>, matched: bool, hash: Receipt -> Digest): Receipt {
    var status := StatusOf(publishing, steps, matched);
    var receipt := Receipt(RECEIPT_SCHEMA, publishing, steps, matched, status, status.Promoted?, "");
    receipt.(checksum := hash(receipt))
  }

  predicate ValidReceipt(r: Receipt, hash: Receipt -> Digest) {
    && r.schema == RECEIPT_SCHEMA
    && r.checksum == hash(r.(checksum := ""))
    && (r.status.Promoted? ==> r.success)
    && (r.status.PartialPublication? || r.status.DryRun? ==> !r.success)
  }

  /** Every receipt built here validates, whatever the hash, and is a success exactly for a
      real publication whose ordered steps are all done and reconciled. */
  lemma ReceiptsValidate(publishing: bool, steps: seq<StepResult>, matched: bool, hash: Receipt -> Digest)
    ensures var r := BuildReceipt(publishing, steps, matched, hash);
            && ValidReceipt(r, hash)
            && (r.success <==> publishing && matched && |steps| == 4 && forall s | s in steps :: Published(s))
  {
  }

  /** Validation does not look at the steps: a validated receipt is one that is built here exactly when
      its status is the one its own mode, steps and reconciliation give. In particular no partial or
      dry-run receipt marked as a success validates, nor a promoted one that is not. */
  lemma ReceiptGenuineIff(r: Receipt, hash: Receipt -> Digest)
    ensures r == BuildReceipt(r.publishing, r.steps, r.matched, hash) <==>
            ValidReceipt(r, hash) && r.status == StatusOf(r.publishing, r.steps, r.matched)
    ensures (r.status.PartialPublication? || r.status.DryRun?) && r.success ==> !ValidReceipt(r, hash)
    ensures r.status.Promoted? && !r.success ==> !ValidReceipt(r, hash)
    ensures r.schema != RECEIPT_SCHEMA || r.checksum != hash(r.(checksum := "")) ==> !ValidReceipt(r, hash)
  {
    var built := BuildReceipt(r.publishing, r.steps, r.matched, hash);
    if ValidReceipt(r, hash) && r.status == built.status {
      assert r.(checksum := "") == built.(checksum := "");
    }
  }

  /** So for every hash there is a receipt that claims a promotion without any step and validates. */
  lemma ValidationAllowsUnsupportedStatus(hash: Receipt -> Digest) returns (r: Receipt)
    ensures ValidReceipt(r, hash) && r.status.Promoted? && r.success && r.steps == []
    ensures forall publishing, steps, matched :: r != BuildReceipt(publishing, steps, matched, hash)
  {
    var bare := Receipt(RECEIPT_SCHEMA, true, [], true, Promoted, true, "");
    r := bare.(checksum := hash(bare));
    assert r.(checksum := "") == bare;
  }

  /** A validated receipt with the checksum of a built one is that receipt, or the two are a
      collision of the hash. */
  lemma ReceiptsTamperEvident(publishing: bool, steps: seq<StepResult>, matched: bool, hash: Receipt -> Digest,
                              other: Receipt)
    requires var built := BuildReceipt(publishing, steps, matched, hash);
             ValidReceipt(other, hash) && other.checksum == built.checksum
    ensures var built := BuildReceipt(publishing, steps, matched, hash);
            || other == built
            || (other.(checksum := "") != built.(checksum := "")
                && hash(other.(checksum := "")) == hash(built.(checksum := "")))
  {
    var built := BuildReceipt(publishing, steps, matched, hash);
    if other.(checksum := "") == built.(checksum := "") {
      assert other == other.(checksum := "").(checksum := other.checksum);
    }
  }

  // ------------------------------------------- what a promoted receipt stands for

  function BoundBy(steps: seq<StepResult>): set<Digest> {
    if steps == [] then {} else Elements(steps[0].bound) + BoundBy(steps[1..])
  }

  lemma {:induction false} NoMismatchMeansPublished(plan: Plan, bom: Bom, steps: seq<StepResult>, x: External)
    requires ReconcileSteps(plan, bom, steps, true, x).mismatches == 0
    ensures forall s | s in steps :: s.status.Completed? && StepIsPublic(plan, s.id, x.world)
              && Elements(s.bound) <= BomDigests(bom)
    ensures ReconcileSteps(plan, bom, steps, true, x).covered == BoundBy(steps)
    decreases steps
  {
    hide Expected, BomDigests;
    if steps != [] {
      var public := VerifyPublicStep(plan, steps[0], x);
      PublicStepFacts(plan, steps[0], x);
      hide VerifyPublicStep;
      assert public.ok && Elements(steps[0].bound) - BomDigests(bom) == {};
      forall d | d in Elements(steps[0].bound) ensures d in BomDigests(bom) {
        assert d !in Elements(steps[0].bound) - BomDigests(bom);
      }
      NoMismatchMeansPublished(plan, bom, steps[1..], public.x);
      assert steps == [steps[0]] + steps[1..];
    }
  }

  predicate StepIsPublic(plan: Plan, id: StepId, w: World) {
    match id
    case ReleaseTag => Tagged(plan, w)
    case PypiPublish => OnPypi(plan.dists, w)
    case ImagePromotion => ImagesUp(plan.images, w)
    case ReleaseFinalisation => Attached(plan, w) && !w.release.value.draft
  }

  lemma PublicStepFacts(plan: Plan, s: StepResult, x: External)
    ensures var r := VerifyPublicStep(plan, s, x);
            && r.x.world == x.world
            && (r.ok ==> s.status.Completed? && StepIsPublic(plan, s.id, x.world))
            && (x.faults == [] ==> r.x.faults == [])
            && (x.faults == [] && s.status.Completed? && plan.assets != [] && StepIsPublic(plan, s.id, x.world) ==>
                  r.ok)
  {
    hide Expected;
    PublishedDistsFacts(plan.dists, x);
    PublishedImagesFacts(plan.images, x);
  }

  /** Without failing reads, steps that are public and bound to known digests all match. */
  lemma {:induction false} PublishedMeansNoMismatch(plan: Plan, bom: Bom, steps: seq<StepResult>, x: External)
    requires x.faults == [] && plan.assets != []
    requires forall s | s in steps :: s.status.Completed? && StepIsPublic(plan, s.id, x.world)
               && Elements(s.bound) <= BomDigests(bom)
    ensures ReconcileSteps(plan, bom, steps, true, x).mismatches == 0
    decreases steps
  {
    hide Expected, BomDigests, StepIsPublic, VerifyPublicStep;
    if steps != [] {
      PublicStepFacts(plan, steps[0], x);
      assert steps[0] in steps;
      PublishedMeansNoMismatch(plan, bom, steps[1..], VerifyPublicStep(plan, steps[0], x).x);
    }
  }

  /** A promoted receipt: all four steps completed in order, everything of the plan is public
      when the receipt is made, and every publishable BOM digest is bound to a step. */
  lemma PromotedMeansDone(plan: Plan, bom: Bom, steps: seq<StepResult>, x: External)
    requires StatusShape(steps) && StatusOf(true, steps, Matched(plan, bom, steps, true, x)).Promoted?
    ensures AllCompleted(steps) && Done(plan, x.world)
    ensures forall a | a in bom.artifacts
                       && (a.kind.Source? || a.kind.Sdist? || a.kind.Wheel? || a.kind.FirstPartyImage?) ::
              a.digest in BoundBy(steps)
    ensures forall d | d in BoundBy(steps) :: d == bom.canonical || exists a | a in bom.artifacts :: a.digest == d
  {
    hide Expected, ReconcileSteps;
    NoMismatchMeansPublished(plan, bom, steps, x);
    forall i | 0 <= i < 4 ensures StepIsPublic(plan, STEP_ORDER[i], x.world) { assert steps[i] in steps; }
    assert StepIsPublic(plan, STEP_ORDER[0], x.world) && StepIsPublic(plan, STEP_ORDER[1], x.world);
    assert StepIsPublic(plan, STEP_ORDER[2], x.world) && StepIsPublic(plan, STEP_ORDER[3], x.world);
    BoundsKnown(bom, steps);
  }

  lemma {:induction false} BoundsKnown(bom: Bom, steps: seq<StepResult>)
    requires forall s | s in steps :: Elements(s.bound) <= BomDigests(bom)
    ensures BoundBy(steps) <= BomDigests(bom)
  {
    hide BomDigests;
    if steps != [] {
      assert steps[0] in steps;
      BoundsKnown(bom, steps[1..]);
    }
  }

  // ------------------------------------------------------ candidates and their plan

  function FilesBeside(c: Candidate): seq<File> { [c.bomFile] + if c.archive.Some? then [c.archive.value] else [] }

  /** What the command line hands to `promote`: a validated BOM, whose canonical digest is a SHA-256,
      and a directory of staged files matching it, in which no two share a name; the other files to
      attach come with their SHA-256 too. */
  ghost predicate ValidCandidate(c: Candidate) {
    && WellFormedBom(c.bom) && Sha256Text(c.bom.canonical) && StagingMatches(c.bom, c.files)
    && (forall f | f in FilesBeside(c) :: Sha256Text(f.digest))
    && forall i, j | 0 <= i < j < |c.files| :: c.files[i].name != c.files[j].name
  }

  lemma PlanFacts(c: Candidate)
    requires ValidCandidate(c)
    ensures var plan := PlanOf(c);
            && WellFormed(plan) && plan.assets != [] && plan.commit == c.bom.commit && plan.canonical == c.bom.canonical
            && (forall d :: d in DistDigests(plan.dists) <==>
                  exists a | a in c.bom.artifacts :: IsDistribution(a) && a.digest == d)
            && (forall d :: d in ImageDigests(plan.images) <==>
                  exists a | a in c.bom.artifacts :: a.kind.FirstPartyImage? && a.digest == d)
  {
    hide WellFormedBom;
    var plan := PlanOf(c);
    var artifacts, images := Distributions(c.bom), Images(c.bom);
    assert images != [] by { ImagePresent(c.bom); }
    assert forall i | 0 <= i < |artifacts| :: plan.dists[i] == DistOf(c, artifacts, i);
    assert forall i | 0 <= i < |artifacts| :: DistDigests(plan.dists)[i] == artifacts[i].digest;
    assert forall i | 0 <= i < |images| :: ImageDigests(plan.images)[i] == images[i].digest;
    forall i, j | 0 <= i < j < |plan.dists| ensures plan.dists[i].key != plan.dists[j].key {
      DistinctDistKeys(c, artifacts, i, j);
    }
    DigestsOf(artifacts, DistDigests(plan.dists));
    DigestsOf(images, ImageDigests(plan.images));
  }

  /** Every file a validated candidate attaches has a digest. */
  lemma CandidateAssetsHaveDigests(c: Candidate)
    requires ValidCandidate(c)
    ensures AssetsHaveDigests(PlanOf(c))
  {
    hide HexText;
    var plan := PlanOf(c);
    forall f | f in plan.assets ensures f.digest != NO_DIGEST {
      if f in c.files { StagedDigest(c, f); } else { assert f in FilesBeside(c); }
    }
  }

  lemma StagedDigest(c: Candidate, f: File)
    requires WellFormedBom(c.bom) && StagingMatches(c.bom, c.files) && f in c.files
    ensures f.digest != NO_DIGEST
  {
    hide HexText, Paired, Has, UniqueImages;
    var artifacts := Distributions(c.bom);
    assert f.digest in ByDigest(c.files) && f.digest in Elements(Digests(artifacts));
    var i :| 0 <= i < |artifacts| && Digests(artifacts)[i] == f.digest;
    assert artifacts[i] in artifacts && WellShaped(artifacts[i]);
    HexNotEmpty(f.digest);
  }

  lemma HexNotEmpty(s: string)
    requires HexText(s, 64)
    ensures s != NO_DIGEST
  {
  }

  lemma DigestsOf(artifacts: seq<Artifact>, digests: seq<Digest>)
    requires |digests| == |artifacts| && forall i | 0 <= i < |artifacts| :: digests[i] == artifacts[i].digest
    ensures forall d :: d in digests <==> exists a | a in artifacts :: a.digest == d
  {
    forall a | a in artifacts ensures a.digest in digests {
      var i :| 0 <= i < |artifacts| && artifacts[i] == a;
      assert digests[i] == a.digest;
    }
  }

  lemma ImagePresent(bom: Bom)
    requires WellFormedBom(bom)
    ensures Images(bom) != []
  {
    var a :| a in bom.artifacts && a.kind.FirstPartyImage?;
    assert a in Images(bom);
  }

  lemma DistinctDistKeys(c: Candidate, artifacts: seq<Artifact>, i: nat, j: nat)
    requires StagingMatches(c.bom, c.files) && artifacts == Distributions(c.bom) && i < j < |artifacts|
    requires forall a, b | 0 <= a < b < |c.files| :: c.files[a].name != c.files[b].name
    ensures DistOf(c, artifacts, i).key != DistOf(c, artifacts, j).key
  {
    var digests := Digests(artifacts);
    assert digests[i] != digests[j];
    assert digests[i] in Elements(digests) && digests[j] in Elements(digests);
    var f, g := StagedFor(c.files, artifacts[i].digest), StagedFor(c.files, artifacts[j].digest);
    var a :| 0 <= a < |c.files| && c.files[a] == f;
    var b :| 0 <= b < |c.files| && c.files[b] == g;
    assert a < b || b < a;
  }

  /** Every source artifact names the release commit. `validate_bom` does not ask for this. */
  predicate SourceBound(bom: Bom) {
    forall a | a in bom.artifacts && a.kind.Source? :: a.digest == bom.commit
  }

  /** A complete, failure-free publication earns a promoted receipt exactly when the BOM's
      source artifacts name the release commit. */
  lemma PromotedIffSourceBound(c: Candidate, w: World)
    requires ValidCandidate(c) && Publishable(PlanOf(c)) && Conforms(PlanOf(c), w)
    ensures var plan := PlanOf(c);
            var r := RunPlan(plan, true, External(w, [], []));
            && r.Going?
            && var matched := Matched(plan, c.bom, r.p.steps, true, External(r.p.x.world, [], []));
               StatusOf(true, r.p.steps, matched).Promoted? <==> SourceBound(c.bom)
  {
    hide RunPlan, Expected, Lawful, Replay, Publishable, Conforms, PlanOf, WellFormedBom;
    var plan := PlanOf(c);
    PlanFacts(c);
    var x := External(w, [], []);
    var _ := PromotionRun(plan, x, false);
    var r := RunPlan(plan, true, x);
    BoundDigests(plan, r.p.steps);
    PublicSteps(plan, r.p.steps, r.p.x.world);
    MatchedIffSourceBound(c, plan, r.p.steps, External(r.p.x.world, [], []));
  }

  /** Promoted is out of reach for any other BOM: whatever fails in the run, whatever state and
      reads the reconciliation meets. */
  lemma PromotedNeedsSourceBound(c: Candidate, x: External, y: External)
    requires ValidCandidate(c)
    requires var r := RunPlan(PlanOf(c), true, x);
             r.Going? && StatusOf(true, r.p.steps, Matched(PlanOf(c), c.bom, r.p.steps, true, y)).Promoted?
    ensures SourceBound(c.bom)
  {
    hide RunPlan, Expected, Lawful, Replay, Publishable, Conforms, PlanOf, WellFormedBom, StatusShape, SourceBound,
         Matched;
    var plan := PlanOf(c);
    var steps := RunPlan(plan, true, x).p.steps;
    PlanFacts(c);
    var _ := PromotionRun(plan, x, false);
    PromotedMeansDone(plan, c.bom, steps, y);
    BoundDigests(plan, steps);
    CoverageIff(c, plan, BoundBy(steps));
  }

  lemma BoundDigests(plan: Plan, steps: seq<StepResult>)
    requires BoundAsPlanned(plan, steps)
    ensures PlanBounds(plan, BoundBy(steps))
    ensures forall s | s in steps :: Elements(s.bound) <= BoundBy(steps)
  {
    assert steps[1..][0] == steps[1] && steps[1..][1..] == steps[2..];
    assert steps[2..][0] == steps[2] && steps[2..][1..] == steps[3..];
    assert steps[3..][0] == steps[3] && steps[3..][1..] == [];
    assert BoundBy(steps) == Elements(steps[0].bound) + BoundBy(steps[1..]);
    assert BoundBy(steps[1..]) == Elements(steps[1].bound) + BoundBy(steps[2..]);
    assert BoundBy(steps[2..]) == Elements(steps[2].bound) + BoundBy(steps[3..]);
    assert BoundBy(steps[3..]) == Elements(steps[3].bound) + BoundBy([]);
    assert steps == [steps[0], steps[1], steps[2], steps[3]];
  }

  lemma PublicSteps(plan: Plan, steps: seq<StepResult>, w: World)
    requires Done(plan, w) && |steps| == 4
    ensures forall s | s in steps :: StepIsPublic(plan, s.id, w)
  {
  }

  /** The digests the plan's steps are bound to. */
  ghost predicate PlanBounds(plan: Plan, bound: set<Digest>) {
    forall d :: d in bound <==>
      d == plan.commit || d in DistDigests(plan.dists) || d in ImageDigests(plan.images) || d == plan.canonical
  }

  /** Source digests have the length of a commit id, so no other step can cover them. */
  lemma CoveredIff(c: Candidate, plan: Plan, bound: set<Digest>, a: Artifact)
    requires ValidCandidate(c) && plan == PlanOf(c) && PlanBounds(plan, bound)
    requires a in c.bom.artifacts && NeedsPublication(a)
    ensures a.digest in bound <==> (a.kind.Source? ==> a.digest == c.bom.commit)
  {
    hide PlanOf, StagingMatches, WellFormed, DistDigests, ImageDigests, WellFormedBom;
    PlanFacts(c);
    if a.kind.Source? { SourceDigestAlone(c, plan, a); }
  }

  lemma BoundsInBom(c: Candidate, plan: Plan, bound: set<Digest>)
    requires ValidCandidate(c) && plan == PlanOf(c) && PlanBounds(plan, bound) && SourceBound(c.bom)
    ensures bound <= BomDigests(c.bom)
  {
    hide PlanOf, StagingMatches, WellFormed, DistDigests, ImageDigests, WellFormedBom, BomDigests;
    PlanFacts(c);
    var source := SourceOf(c.bom);
    forall d | d in bound ensures d in BomDigests(c.bom) {
      if d == plan.canonical {
        InBom(c.bom, source);
      } else {
        var a :| a in c.bom.artifacts && a.digest == d;
        InBom(c.bom, a);
      }
    }
  }

  lemma SourceOf(bom: Bom) returns (source: Artifact)
    requires WellFormedBom(bom)
    ensures source in bom.artifacts && source.kind.Source?
  {
    source :| source in bom.artifacts && source.kind.Source?;
  }

  lemma InBom(bom: Bom, a: Artifact)
    requires a in bom.artifacts
    ensures a.digest in BomDigests(bom) && bom.canonical in BomDigests(bom)
  {
  }

  lemma CoverageIff(c: Candidate, plan: Plan, bound: set<Digest>)
    requires ValidCandidate(c) && plan == PlanOf(c) && PlanBounds(plan, bound)
    ensures !Uncovered(c.bom, bound) <==> SourceBound(c.bom)
    ensures SourceBound(c.bom) ==> bound <= BomDigests(c.bom)
  {
    forall a | a in c.bom.artifacts && NeedsPublication(a)
      ensures a.digest in bound <==> (a.kind.Source? ==> a.digest == c.bom.commit)
    {
      CoveredIff(c, plan, bound, a);
    }
    if SourceBound(c.bom) { BoundsInBom(c, plan, bound); }
    hide PlanBounds, BomDigests, ValidCandidate;
  }

  lemma SourceDigestAlone(c: Candidate, plan: Plan, a: Artifact)
    requires ValidCandidate(c) && plan == PlanOf(c) && a in c.bom.artifacts && a.kind.Source?
    ensures a.digest !in DistDigests(plan.dists) && a.digest !in ImageDigests(plan.images) && a.digest != plan.canonical
  {
    hide PlanOf, StagingMatches, WellFormed, DistDigests, ImageDigests, WellFormedBom;
    PlanFacts(c);
    Shapes(c.bom);
    assert 40 <= |a.digest| <= 41 && |plan.canonical| == 64;
    forall b | b in c.bom.artifacts && (IsDistribution(b) || b.kind.FirstPartyImage?) ensures b.digest != a.digest {
      assert WellShaped(b) && |b.digest| >= 64;
    }
  }

  lemma Shapes(bom: Bom)
    requires WellFormedBom(bom)
    ensures forall b | b in bom.artifacts :: WellShaped(b)
  {
  }

  lemma MatchedIffSourceBound(c: Candidate, plan: Plan, steps: seq<StepResult>, x: External)
    requires ValidCandidate(c) && plan == PlanOf(c) && x.faults == [] && AllCompleted(steps)
    requires forall s | s in steps :: StepIsPublic(plan, s.id, x.world) && Elements(s.bound) <= BoundBy(steps)
    requires PlanBounds(plan, BoundBy(steps))
    ensures StatusOf(true, steps, Matched(plan, c.bom, steps, true, x)).Promoted? <==> SourceBound(c.bom)
  {
    hide Expected, PlanOf, ReconcileSteps, StepIsPublic, StagingMatches, BoundBy, WellFormedBom, SourceBound,
         BomDigests, Uncovered, Elements;
    PlanNotEmpty(c);
    CoverageIff(c, plan, BoundBy(steps));
    if SourceBound(c.bom) {
      PublishedMeansNoMismatch(plan, c.bom, steps, x);
    }
    if ReconcileSteps(plan, c.bom, steps, true, x).mismatches == 0 {
      NoMismatchMeansPublished(plan, c.bom, steps, x);
    }
  }

  lemma PlanNotEmpty(c: Candidate)
    requires ValidCandidate(c)
    ensures PlanOf(c).assets != []
  {
  }
}
