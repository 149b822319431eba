/** What holds in every run of a promotion, and over any number of interrupted runs. */
module PromotionRuns {
  import opened Options
  import opened Staging
  import opened Publication
  import opened Promotion
  import opened PublishOrder
  import opened PromotionSteps

  /** One executed attempt: the step is recorded last, completed or failed. */
  predicate Recorded(p: Progress, p': Progress, id: StepId, order: nat, bound: seq<Digest>) {
    && |p'.steps| == |p.steps| + 1 && p'.steps[..|p.steps|] == p.steps
    && var last := p'.steps[|p.steps|];
       && last.id == id && last.order == order
       && last.status == (if p'.aborted then Failed else Completed)
       && (!p'.aborted ==> last.bound == bound)
  }

  lemma Step1Run(plan: Plan, p: Progress, keeping: bool) returns (delta: seq<Effect>)
    requires !p.aborted
    ensures var r := Step1(plan, true, p);
            && Trace(plan, p.x, Final(r), delta, keeping) && FrameTag(p.x.world, Final(r).world)
            && (r.Gate? ==> r.x == p.x)
            && (r.Going? ==> Recorded(p, r.p, ReleaseTag, 1, [plan.commit]))
            && (r.Going? && !r.p.aborted ==> Tagged(plan, r.p.x.world))
            && (p.x.faults == [] && LocalFits(plan, p.x.world) && RemoteFits(plan, p.x.world) ==>
                  r.Going? && !r.p.aborted && r.p.x.faults == [])
  {
    hide Lawful, Replay, RunCommands;
    delta := TagStep(plan, p.x, keeping);
    if !PrepareTag(plan, true, p.x).Ready? {
      delta := [];
      TraceNothing(plan, p.x, Final(Step1(plan, true, p)), keeping);
    }
  }

  lemma Step2Run(plan: Plan, p: Progress, keeping: bool) returns (delta: seq<Effect>)
    requires !p.aborted && Tagged(plan, p.x.world) && DistinctKeys(plan.dists)
    ensures var r := Step2(plan, true, p);
            && r.Going? && Recorded(p, r.p, PypiPublish, 2, DistDigests(plan.dists))
            && Trace(plan, p.x, r.p.x, delta, keeping)
            && FramePypi(p.x.world, r.p.x.world) && AddedDists(plan.dists, p.x.world, r.p.x.world)
            && (!r.p.aborted ==> PypiRan(plan, p.x, Checked(true, r.p.x)))
            && (p.x.faults == [] && PypiFits(plan.dists, p.x.world)
                && (StableDists(plan.dists) || OnPypi(plan.dists, p.x.world)) ==>
                  !r.p.aborted && r.p.x.faults == [])
  {
    hide Trace, Lawful, Replay, RunCommands;
    delta := PypiStep(plan, p.x, keeping);
    MissingFacts(plan.dists, p.x);
    if !PreparePypi(plan, true, p.x).Ready? {
      delta := [];
      TraceNothing(plan, p.x, Final(Step2(plan, true, p)), keeping);
    }
  }

  lemma Step3Run(plan: Plan, p: Progress, keeping: bool) returns (delta: seq<Effect>)
    requires !p.aborted && Tagged(plan, p.x.world) && OnPypi(plan.dists, p.x.world) && plan.images != []
    requires keeping ==> ImagesAgree(plan)
    ensures var r := Step3(plan, true, p);
            && r.Going? && Recorded(p, r.p, ImagePromotion, 3, ImageDigests(plan.images))
            && Trace(plan, p.x, r.p.x, delta, keeping)
            && FrameImages(p.x.world, r.p.x.world)
            && (!r.p.aborted ==> ImagesUp(plan.images, r.p.x.world))
            && (p.x.faults == [] && ImagesFit(plan.images, p.x.world) && ImagesAgree(plan) ==>
                  !r.p.aborted && r.p.x.faults == [])
  {
    hide Trace, Lawful, Replay, RunCommands, ImageCommands, ImagesUnderway;
    delta := ImageStage(plan, p.x, keeping);
    ImageCommandsFacts(plan.images, p.x);
    if !PrepareImages(plan, true, p.x).Ready? {
      delta := [];
      TraceNothing(plan, p.x, Final(Step3(plan, true, p)), keeping);
    }
  }

  lemma Step4Run(plan: Plan, p: Progress, keeping: bool) returns (delta: seq<Effect>)
    requires !p.aborted && BeforeRelease(plan, p.x.world)
    ensures var r := Step4(plan, true, p);
            && r.Going? && Recorded(p, r.p, ReleaseFinalisation, 4, [plan.canonical])
            && Trace(plan, p.x, r.p.x, delta, keeping)
            && (!r.p.aborted ==> Done(plan, r.p.x.world))
            && (!r.p.aborted && p.x.world.release.None? ==> DistinctNames(plan.assets) && AssetBytes(plan, r.p.x.world))
            && r.p.x.world.pypi == p.x.world.pypi
            && (p.x.faults == [] && AssetsFit(plan, p.x.world) && DistinctNames(plan.assets)
                && StableAssets(plan.assets) ==>
                  !r.p.aborted && r.p.x.faults == [])
  {
    hide Trace, Lawful, Replay, RunCommands, ReleaseCommands, Done;
    delta := ReleaseStage(plan, p.x, keeping);
    if !PrepareRelease(plan, true, p.x).Ready? {
      delta := [];
      TraceNothing(plan, p.x, Final(Step4(plan, true, p)), keeping);
    }
  }

  // ------------------------------------------------------------------- one run

  /** Four steps in the fixed order: completed ones, then at most one failed, then not-run ones. */
  ghost predicate StatusShape(steps: seq<StepResult>) {
    && |steps| == 4
    && (forall i | 0 <= i < 4 :: steps[i].id == STEP_ORDER[i] && steps[i].order == i + 1)
    && exists k | 0 <= k <= 4 :: CutAt(steps, k)
  }

  ghost predicate CutAt(steps: seq<StepResult>, k: nat) {
    forall i | 0 <= i < |steps| :: steps[i].status == if i < k then Completed else if i == k then Failed else NotRun
  }

  predicate AllCompleted(steps: seq<StepResult>) {
    |steps| == 4 && forall s | s in steps :: s.status == Completed
  }

  predicate BoundAsPlanned(plan: Plan, steps: seq<StepResult>) {
    |steps| == 4 && steps[0].bound == [plan.commit] && steps[1].bound == DistDigests(plan.dists)
    && steps[2].bound == ImageDigests(plan.images) && steps[3].bound == [plan.canonical]
  }

  predicate WellFormed(plan: Plan) {
    plan.images != [] && forall i, j | 0 <= i < j < |plan.dists| :: plan.dists[i].key != plan.dists[j].key
  }

  /** Nothing public contradicts the plan. */
  predicate Conforms(plan: Plan, w: World) {
    && LocalFits(plan, w) && RemoteFits(plan, w)
    && PypiFits(plan.dists, w) && ImagesFit(plan.images, w) && AssetsFit(plan, w)
  }

  /** The plan can be published: files do not change under the upload, no two images share a
      name with different digests, no two assets share a name. */
  ghost predicate Publishable(plan: Plan) {
    StableDists(plan.dists) && ImagesAgree(plan) && DistinctNames(plan.assets) && StableAssets(plan.assets)
  }

  function StepAfter(plan: Plan, p: Progress, k: nat): Run {
    if k == 1 then Step2(plan, true, p) else if k == 2 then Step3(plan, true, p) else Step4(plan, true, p)
  }

  /** The run from `p`, once the first `k` steps are recorded. */
  function Rest(plan: Plan, p: Progress, k: nat): Run
    decreases 4 - k
  {
    if k >= 4 then Going(p)
    else
      match StepAfter(plan, p, k)
      case Gate(reason, x) => Gate(reason, x)
      case Going(p') => Rest(plan, p', k + 1)
  }

  lemma RunIsRest(plan: Plan, x: External)
    ensures var first := Step1(plan, true, Progress([], false, x));
            RunPlan(plan, true, x) == if first.Gate? then first else Rest(plan, first.p, 1)
  {
    hide Step1, Step2, Step3, Step4;
    if Step1(plan, true, Progress([], false, x)).Going? {
      var p1 := Step1(plan, true, Progress([], false, x)).p;
      if Step2(plan, true, p1).Going? {
        var p2 := Step2(plan, true, p1).p;
        assert Rest(plan, p1, 1) == Rest(plan, p2, 2);
        if Step3(plan, true, p2).Going? {
          var p3 := Step3(plan, true, p2).p;
          assert Rest(plan, p2, 2) == Rest(plan, p3, 3);
        }
      }
    }
  }

  /** `p` recorded `k` steps, the failed one followed by steps not run. */
  ghost predicate AbortedAt(p: Progress, k: nat, failed: nat) {
    && p.aborted && |p.steps| == k && failed < k <= 4
    && (forall i | 0 <= i < k :: p.steps[i].id == STEP_ORDER[i] && p.steps[i].order == i + 1)
    && CutAt(p.steps, failed)
  }

  /** Steps that follow an abort are recorded as not run and touch nothing. */
  lemma AbortedTail(plan: Plan, p: Progress, k: nat, failed: nat)
    requires AbortedAt(p, k, failed) && 1 <= k
    ensures var r := Rest(plan, p, k);
            r.Going? && r.p.x == p.x && r.p.aborted && StatusShape(r.p.steps) && !AllCompleted(r.p.steps)
    decreases 4 - k
  {
    if k < 4 {
      assert StepAfter(plan, p, k) == Going(p.(steps := p.steps + [StepResult(STEP_ORDER[k], k + 1, NotRun, [], [])]));
      AbortedTail(plan, StepAfter(plan, p, k).p, k + 1, failed);
    } else {
      assert p.steps[failed] in p.steps;
    }
  }

  ghost predicate RunFacts(plan: Plan, x: External, r: Run) {
    && (r.Gate? ==> r.x == x)
    && (r.Going? ==> StatusShape(r.p.steps) && (r.p.aborted <==> !AllCompleted(r.p.steps)))
    && (r.Going? && AllCompleted(r.p.steps) ==>
          && Done(plan, r.p.x.world) && BoundAsPlanned(plan, r.p.steps)
          && (forall d | d in plan.dists && d.key !in x.world.pypi :: r.p.x.world.pypi[d.key] == d.uploaded)
          && (x.world.release.None? ==> DistinctNames(plan.assets) && AssetBytes(plan, r.p.x.world)))
    && (x.faults == [] && Conforms(plan, x.world) && Publishable(plan) ==> r.Going? && AllCompleted(r.p.steps))
  }

  /** `p` completed the first two steps of a run that started at `x`. */
  ghost predicate FirstTwoDone(plan: Plan, x: External, p: Progress) {
    && !p.aborted && |p.steps| == 2
    && (forall i | 0 <= i < 2 ::
          p.steps[i].id == STEP_ORDER[i] && p.steps[i].order == i + 1 && p.steps[i].status == Completed)
    && p.steps[0].bound == [plan.commit] && p.steps[1].bound == DistDigests(plan.dists)
    && Tagged(plan, p.x.world) && OnPypi(plan.dists, p.x.world)
    && (forall d | d in plan.dists && d.key !in x.world.pypi :: p.x.world.pypi[d.key] == d.uploaded)
    && p.x.world.images == x.world.images && p.x.world.release == x.world.release
    && (x.faults == [] && Conforms(plan, x.world) && Publishable(plan) ==> p.x.faults == [])
  }

  /** The image and release steps of a run whose tag and PyPI steps completed. */
  lemma LastTwoSteps(plan: Plan, x: External, p2: Progress, before: seq<Effect>, keeping: bool)
    returns (delta: seq<Effect>)
    requires WellFormed(plan) && (keeping ==> ImagesAgree(plan))
    requires FirstTwoDone(plan, x, p2) && Trace(plan, x, p2.x, before, keeping)
    ensures Trace(plan, x, Final(Rest(plan, p2, 2)), delta, keeping)
    ensures RunFacts(plan, x, Rest(plan, p2, 2))
  {
    hide Trace, Lawful, Replay, Step3, Step4, Done, DistinctNames, AssetBytes, StatusShape, ImagesUp, AllCompleted;
    var d3 := Step3Run(plan, p2, keeping);
    var p3 := Step3(plan, true, p2).p;
    TraceJoin(plan, x, p2.x, p3.x, before, d3, keeping);
    delta := before + d3;
    assert Rest(plan, p2, 2) == Rest(plan, p3, 3);
    if p3.aborted {
      AbortedTail(plan, p3, 3, 2);
    } else {
      var d4 := Step4Run(plan, p3, keeping);
      var p4 := Step4(plan, true, p3).p;
      TraceJoin(plan, x, p3.x, p4.x, delta, d4, keeping);
      delta := delta + d4;
      assert Rest(plan, p3, 3) == Going(p4);
      if p4.aborted { AbortedTail(plan, p4, 4, 3); } else { CompletedShape(p4.steps); }
    }
  }

  lemma PromotionRun(plan: Plan, x: External, keeping: bool) returns (delta: seq<Effect>)
    requires WellFormed(plan) && (keeping ==> ImagesAgree(plan))
    ensures Trace(plan, x, Final(RunPlan(plan, true, x)), delta, keeping)
    ensures RunFacts(plan, x, RunPlan(plan, true, x))
  {
    hide Trace, Lawful, Replay, Step1, Step2, Step3, Step4, Done, DistinctNames, AssetBytes, StatusShape, ImagesUp,
         AllCompleted, RunPlan;
    RunIsRest(plan, x);
    var start := Progress([], false, x);
    delta := Step1Run(plan, start, keeping);
    var r1 := Step1(plan, true, start);
    if r1.Going? {
      if r1.p.aborted {
        AbortedTail(plan, r1.p, 1, 0);
      } else {
        var d2 := Step2Run(plan, r1.p, keeping);
        var p2 := Step2(plan, true, r1.p).p;
        TraceJoin(plan, x, r1.p.x, p2.x, delta, d2, keeping);
        delta := delta + d2;
        assert Rest(plan, r1.p, 1) == Rest(plan, p2, 2);
        if p2.aborted {
          AbortedTail(plan, p2, 2, 1);
        } else {
          delta := LastTwoSteps(plan, x, p2, delta, keeping);
        }
      }
    }
  }

  lemma CompletedShape(steps: seq<StepResult>)
    requires |steps| == 4
    requires forall i | 0 <= i < 4 ::
               steps[i].id == STEP_ORDER[i] && steps[i].order == i + 1 && steps[i].status == Completed
    ensures StatusShape(steps) && AllCompleted(steps)
  {
    assert CutAt(steps, 4);
  }
}
