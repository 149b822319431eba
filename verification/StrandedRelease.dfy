/** Every publishable plan has a run that strands it: a promotion whose first asset upload is cut
    off. The input behind the condition in `Convergence.InterruptedRunsConvergeIff`. */
module StrandedRelease {
  import opened Options
  import opened Staging
  import opened Publication
  import opened Promotion
  import opened PublishOrder
  import opened PromotionSteps
  import opened PromotionRuns
  import opened PromotionTheorems
  import opened Convergence

  /** `n` calls that work, then `rest`. */
  function Then(n: nat, rest: seq<Outcome>): seq<Outcome> { seq(n, _ => Works) + rest }

  lemma ThenNext(n: nat, rest: seq<Outcome>, x: External)
    requires n > 0 && x.faults == Then(n, rest)
    ensures Next(x) == Works && Consume(x) == x.(faults := Then(n - 1, rest))
  {
    assert Then(n, rest)[1..] == Then(n - 1, rest);
  }

  lemma ThenNone(rest: seq<Outcome>)
    ensures Then(0, rest) == rest
  {
  }

  // --------------------------------------- reads and commands that have nothing to do

  lemma {:induction false} NothingMissing(dists: seq<Dist>, n: nat, rest: seq<Outcome>, x: External)
    requires OnPypi(dists, x.world) && x.faults == Then(|dists| + n, rest)
    ensures MissingPypi(dists, x) == Lists([], x.(faults := Then(n, rest)))
    decreases dists
  {
    hide Then;
    if dists != [] {
      ThenNext(|dists| + n, rest, x);
      assert dists[0] in dists && forall d | d in dists[1..] :: d in dists;
      NothingMissing(dists[1..], n, rest, Consume(x));
    }
  }

  lemma {:induction false} AllPublished(dists: seq<Dist>, n: nat, rest: seq<Outcome>, x: External)
    requires OnPypi(dists, x.world) && x.faults == Then(|dists| + n, rest)
    ensures PublishedDists(dists, x) == Checked(true, x.(faults := Then(n, rest)))
    decreases dists
  {
    hide Then;
    if dists != [] {
      ThenNext(|dists| + n, rest, x);
      assert dists[0] in dists && forall d | d in dists[1..] :: d in dists;
      AllPublished(dists[1..], n, rest, Consume(x));
    }
  }

  function Signs(images: seq<ImageRef>): seq<seq<Effect>> {
    if images == [] then [] else [[SignImage(images[0])]] + Signs(images[1..])
  }

  lemma {:induction false} OnlySigns(images: seq<ImageRef>, n: nat, rest: seq<Outcome>, x: External)
    requires ImagesUp(images, x.world) && x.faults == Then(|images| + n, rest)
    ensures ImageCommands(images, x) == Ready(Signs(images), x.(faults := Then(n, rest)))
    decreases images
  {
    hide Then;
    if images != [] {
      ThenNext(|images| + n, rest, x);
      assert images[0] in images && forall i | i in images[1..] :: i in images;
      OnlySigns(images[1..], n, rest, Consume(x));
      var none: seq<seq<Effect>> := [];
      assert none + [[SignImage(images[0])]] + Signs(images[1..]) == Signs(images);
    }
  }

  lemma {:induction false} AllSigned(images: seq<ImageRef>, n: nat, rest: seq<Outcome>, x: External)
    requires ImagesUp(images, x.world) && x.faults == Then(2 * |images| + n, rest)
    ensures PublishedImages(images, x) == Checked(true, x.(faults := Then(n, rest)))
    decreases images
  {
    hide Then;
    if images != [] {
      ThenNext(2 * |images| + n, rest, x);
      ThenNext(2 * |images| + n - 1, rest, Consume(x));
      assert images[0] in images && forall i | i in images[1..] :: i in images;
      AllSigned(images[1..], n, rest, Consume(Consume(x)));
    }
  }

  /** Signing again changes nothing. */
  lemma {:induction false} SignsAgain(plan: Plan, images: seq<ImageRef>, n: nat, rest: seq<Outcome>, x: External)
    requires ImagesUp(images, x.world) && ImagesUp(plan.images, x.world)
    requires x.faults == Then(|images| + 2 * |plan.images| + n, rest)
    ensures var r := RunCommands(Signs(images), Some(ImageCheck(plan)), x);
            r.ok && r.x.world == x.world && r.x.faults == Then(n, rest)
    decreases images
  {
    hide Then, ImageCommands;
    if images == [] {
      AllSigned(plan.images, n, rest, x);
    } else {
      var i := images[0];
      assert i in images && forall i | i in images[1..] :: i in images;
      ThenNext(|images| + 2 * |plan.images| + n, rest, x);
      SinglePerform(Consume(x), SignImage(i), 1);
      var y := RunCommand(x, [SignImage(i)]);
      assert y.ok && y.x.world.signed == x.world.signed;
      assert y.x.world == x.world;
      assert Signs(images)[1..] == Signs(images[1..]) && Signs(images)[0] == [SignImage(i)];
      SignsAgain(plan, images[1..], n, rest, y.x);
    }
  }

  // ------------------------------------------------------------ a run cut off

  /** Everything is public but the release, a draft without assets. */
  predicate AwaitsAssets(plan: Plan, w: World) {
    w.localTag.None? && BeforeRelease(plan, w) && w.release == Some(Release(true, map[]))
  }

  lemma TagStepIdle(plan: Plan, p: Progress, n: nat, rest: seq<Outcome>)
    requires !p.aborted && AwaitsAssets(plan, p.x.world) && p.x.faults == Then(2 + n, rest)
    ensures var r := Step1(plan, true, p); r.Going? && !r.p.aborted && r.p.x == p.x.(faults := Then(n, rest))
  {
    hide Then;
    ThenNext(2 + n, rest, p.x);
    ThenNext(1 + n, rest, Consume(p.x));
  }

  lemma PypiStepIdle(plan: Plan, p: Progress, n: nat, rest: seq<Outcome>)
    requires !p.aborted && AwaitsAssets(plan, p.x.world) && p.x.faults == Then(2 * |plan.dists| + n, rest)
    ensures var r := Step2(plan, true, p); r.Going? && !r.p.aborted && r.p.x == p.x.(faults := Then(n, rest))
  {
    hide Then, MissingPypi, PublishedDists;
    NothingMissing(plan.dists, |plan.dists| + n, rest, p.x);
    AllPublished(plan.dists, n, rest, p.x.(faults := Then(|plan.dists| + n, rest)));
  }

  lemma ImageStepIdle(plan: Plan, p: Progress, n: nat, rest: seq<Outcome>)
    requires !p.aborted && AwaitsAssets(plan, p.x.world) && plan.images != []
    requires p.x.faults == Then(4 * |plan.images| + n, rest)
    ensures var r := Step3(plan, true, p);
            r.Going? && !r.p.aborted && r.p.x.world == p.x.world && r.p.x.faults == Then(n, rest)
  {
    hide Then, ImageCommands, PublishedImages, RunCommands;
    OnlySigns(plan.images, 3 * |plan.images| + n, rest, p.x);
    SignsAgain(plan, plan.images, n, rest, p.x.(faults := Then(3 * |plan.images| + n, rest)));
  }

  /** The release is read, and the upload of the first asset is cut off. */
  lemma FirstUploadCutOff(plan: Plan, p: Progress)
    requires !p.aborted && AwaitsAssets(plan, p.x.world) && plan.assets != [] && p.x.faults == Then(1, [CutsOff(0)])
    ensures var r := Step4(plan, true, p); r.Going? && LeaveStub(plan.assets[0]) in r.p.x.log
  {
    hide Then;
    var f := plan.assets[0];
    ThenNext(1, [CutsOff(0)], p.x);
    ThenNone([CutsOff(0)]);
    var x := Consume(p.x);
    var uploads := AssetUploads(plan.assets, {});
    var commands := ReleaseCommands(plan, p.x.world.release);
    assert p.x.world.release.value.assets.Keys == {};
    assert uploads == [[UploadAsset(f)]] + AssetUploads(plan.assets[1..], {});
    assert commands[0] == [UploadAsset(f)];
    assert CutAfter([UploadAsset(f)], 0) == [LeaveStub(f)] by {
      assert [UploadAsset(f)][..0] + [LeaveStub(f)] == [LeaveStub(f)];
    }
    SinglePerform(Consume(x), LeaveStub(f), 1);
    var ran := RunCommand(x, commands[0]);
    assert !ran.ok && ran.x.log == x.log + [LeaveStub(f)];
    assert RunCommands(commands, Some(AssetCheck(plan)), x) == ran by {
      hide RunCommand;
      assert commands[0] != [Finalise];
    }
  }

  /** The calls of a run from there before its first upload. */
  function CallsBefore(plan: Plan): nat { 2 + (2 * |plan.dists| + (4 * |plan.images| + 1)) }

  /** A run that breaks where the first asset is being uploaded. */
  function CutOffSession(plan: Plan): Session { Session(false, Then(CallsBefore(plan), [CutsOff(0)])) }

  lemma CutOffRun(plan: Plan, w: World)
    requires AwaitsAssets(plan, w) && plan.images != [] && plan.assets != []
    ensures LeaveStub(plan.assets[0]) in SessionEffects(plan, w, CutOffSession(plan))
  {
    hide Then, Step1, Step2, Step3, Step4, AwaitsAssets;
    var x := External(w, Then(CallsBefore(plan), [CutsOff(0)]), []);
    var rest := [CutsOff(0)];
    var start := Progress([], false, x);
    TagStepIdle(plan, start, 2 * |plan.dists| + (4 * |plan.images| + 1), rest);
    var p1 := Step1(plan, true, start).p;
    PypiStepIdle(plan, p1, 4 * |plan.images| + 1, rest);
    var p2 := Step2(plan, true, p1).p;
    ImageStepIdle(plan, p2, 1, rest);
    var p3 := Step3(plan, true, p2).p;
    FirstUploadCutOff(plan, p3);
    assert RunPlan(plan, true, x) == Step4(plan, true, p3);
  }

  /** Some interrupted run strands every plan with an asset: from a world that contradicts nothing,
      one run is cut off inside an upload, and no sequence of runs ever finishes after it. */
  lemma EveryPlanCanBeStranded(plan: Plan) returns (w: World, s: Session)
    requires WellFormed(plan) && Publishable(plan) && AssetsHaveDigests(plan) && plan.assets != []
    ensures Conforms(plan, w) && !AllWhole(plan, w, [s])
    ensures forall more :: !Finishes(plan, AfterSessions(plan, w, [s]), more)
  {
    hide RunPlan, Publishable, AllCompleted, Completes, SessionEffects, Finishes, AfterSessions;
    var empty := World(None, None, map[], map[], {}, None);
    CompletesIffPublishable(plan);
    assert Conforms(plan, empty) && Completes(plan, empty);
    assert Done(plan, RunFrom(plan, External(empty, [], [])).world) by { CompletedFromNothing(plan); }
    w := RunFrom(plan, External(empty, [], [])).world.(localTag := None, release := Some(Release(true, map[])));
    s := CutOffSession(plan);
    CutOffRun(plan, w);
    InterruptedRunsConvergeIff(plan, w, [s], false);
  }

  lemma CompletedFromNothing(plan: Plan)
    requires WellFormed(plan) && Completes(plan, World(None, None, map[], map[], {}, None))
    ensures Done(plan, RunFrom(plan, External(World(None, None, map[], map[], {}, None), [], [])).world)
  {
    hide Done, RunPlan, AllCompleted;
    CompletedRunsAreDone(plan, External(World(None, None, map[], map[], {}, None), [], []));
  }
}
