/** The promises of a promotion, each for every plan, every world and every schedule of
    failures: when nothing public is replaced, when a run completes, that a release turns
    final only with its assets, and that interrupted runs converge. */
module PromotionTheorems {
  import opened Options
  import opened Staging
  import opened Publication
  import opened Promotion
  import opened PublishOrder
  import opened PromotionSteps
  import opened PromotionRuns

  function RunFrom(plan: Plan, x: External): External { Final(RunPlan(plan, true, x)) }

  /** The effects one run had. */
  function EffectsOf(plan: Plan, x: External): seq<Effect> {
    if |x.log| <= |RunFrom(plan, x).log| then RunFrom(plan, x).log[|x.log|..] else []
  }

  /** Every run publishes in the fixed order, at every effect it has, whatever fails. */
  lemma EveryRunIsOrdered(plan: Plan, x: External)
    requires WellFormed(plan)
    ensures Lawful(plan, x.world, EffectsOf(plan, x), false)
    ensures Replay(x.world, EffectsOf(plan, x)) == Some(RunFrom(plan, x).world)
  {
    hide Lawful, Replay, RunPlan;
    var delta := PromotionRun(plan, x, false);
    assert EffectsOf(plan, x) == delta;
  }

  // ------------------------------------------------------------- draft, then final

  predicate DraftOrAttached(plan: Plan, w: World) {
    w.release.Some? && !w.release.value.draft ==> Attached(plan, w)
  }

  lemma {:induction false} LawfulKeepsDraftRule(plan: Plan, w: World, log: seq<Effect>)
    requires Lawful(plan, w, log, false) && DraftOrAttached(plan, w) && Replay(w, log).Some?
    ensures DraftOrAttached(plan, Replay(w, log).value)
    decreases log
  {
    hide Expected;
    if log != [] {
      LawfulKeepsDraftRule(plan, Apply(w, log[0]), log[1..]);
    }
  }

  /** From an absent or draft release, no run makes the release final unless every required
      asset is attached with its expected digest. */
  lemma FinalOnlyWithAssets(plan: Plan, x: External)
    requires WellFormed(plan) && (x.world.release.Some? ==> x.world.release.value.draft)
    ensures var w := RunFrom(plan, x).world;
            w.release.Some? && !w.release.value.draft ==> AssetsAttached(w.release.value, Expected(plan.assets))
  {
    hide Lawful, Replay, RunPlan, Expected;
    EveryRunIsOrdered(plan, x);
    LawfulKeepsDraftRule(plan, x.world, EffectsOf(plan, x));
  }

  // -------------------------------------------------- a run, moment by moment

  /** The world after the first `k` effects of the run. */
  ghost function Moment(plan: Plan, x: External, k: nat): World
    requires WellFormed(plan) && k <= |EffectsOf(plan, x)|
  {
    MomentExists(plan, x, k);
    Replay(x.world, EffectsOf(plan, x)[..k]).value
  }

  lemma MomentExists(plan: Plan, x: External, k: nat)
    requires WellFormed(plan) && k <= |EffectsOf(plan, x)|
    ensures Replay(x.world, EffectsOf(plan, x)[..k]).Some?
  {
    hide Lawful, Replay, RunPlan;
    EveryRunIsOrdered(plan, x);
    PrefixReplays(x.world, EffectsOf(plan, x), k);
  }

  lemma {:induction false} PrefixReplays(w: World, log: seq<Effect>, k: nat)
    requires Replay(w, log).Some? && k <= |log|
    ensures Replay(w, log[..k]).Some?
    decreases k
  {
    if k > 0 {
      PrefixReplays(Apply(w, log[0]), log[1..], k - 1);
      assert log[..k][1..] == log[1..][..k - 1];
    }
  }

  /** The effect at place `k` is lawful in the world it meets and leads to the next one. */
  lemma {:induction false} LawfulAt(plan: Plan, w: World, log: seq<Effect>, k: nat, keeping: bool)
    requires Lawful(plan, w, log, keeping) && k < |log|
    ensures Replay(w, log[..k]).Some? && Accepts(Replay(w, log[..k]).value, log[k])
    ensures Ordered(plan, Replay(w, log[..k]).value, log[k])
    ensures keeping ==> Fresh(Replay(w, log[..k]).value, log[k])
    ensures Replay(w, log[..k + 1]) == Some(Apply(Replay(w, log[..k]).value, log[k]))
    decreases k
  {
    assert log[..k + 1][0] == log[0];
    if k == 0 {
      assert log[..0] == [] && log[..1][1..] == [];
    } else {
      LawfulAt(plan, Apply(w, log[0]), log[1..], k - 1, keeping);
      assert log[..k][1..] == log[1..][..k - 1] && log[..k + 1][1..] == log[1..][..k];
    }
  }

  lemma MomentStep(plan: Plan, x: External, k: nat)
    requires WellFormed(plan) && k < |EffectsOf(plan, x)|
    ensures var w, e := Moment(plan, x, k), EffectsOf(plan, x)[k];
            Accepts(w, e) && Ordered(plan, w, e) && Moment(plan, x, k + 1) == Apply(w, e)
  {
    hide Lawful, Replay, RunPlan, Accepts, Ordered, Apply;
    EveryRunIsOrdered(plan, x);
    LawfulAt(plan, x.world, EffectsOf(plan, x), k, false);
  }

  /** What may change from one moment to the next: tags only come to name the release commit; a
      file reaches PyPI only when the tag is public; an image or signature only when all
      distributions are; the release changes only when all images are tagged and signed; and it
      becomes final only when it has every expected asset. */
  ghost predicate InOrder(plan: Plan, w: World, w': World) {
    var tagged := w.remoteTag == Some(plan.commit);
    var onPypi := forall d | d in plan.dists :: d.key in w.pypi && w.pypi[d.key] == d.digest;
    var imagesUp := forall i | i in plan.images ::
      i.name in w.images && w.images[i.name] == i.digest && (i.name, i.digest) in w.signed;
    && (w'.localTag != w.localTag ==> w'.localTag == Some(plan.commit))
    && (w'.remoteTag != w.remoteTag ==> w'.remoteTag == Some(plan.commit))
    && (w'.pypi != w.pypi ==> tagged && exists d | d in plan.dists :: w'.pypi == w.pypi[d.key := d.uploaded])
    && (w'.images != w.images ==>
          tagged && onPypi && exists i | i in plan.images :: w'.images == w.images[i.name := i.digest])
    && (w'.signed != w.signed ==>
          && tagged && onPypi
          && exists i | i in plan.images ::
               && i.name in w.images && w.images[i.name] == i.digest
               && w'.signed == w.signed + {(i.name, i.digest)})
    && (w'.release != w.release ==> tagged && onPypi && imagesUp)
    && (w'.release.Some? && !w'.release.value.draft && (w.release.None? || w.release.value.draft) ==>
          && w.release.Some?
          && forall name | name in Expected(plan.assets) ::
               name in w.release.value.assets && w.release.value.assets[name] == Expected(plan.assets)[name])
  }

  /** Every effect of every run, whatever fails, changes the world in the publish order. */
  lemma EveryMomentInOrder(plan: Plan, x: External, k: nat)
    requires WellFormed(plan) && k < |EffectsOf(plan, x)|
    ensures InOrder(plan, Moment(plan, x, k), Moment(plan, x, k + 1))
  {
    hide Moment, InOrder, EffectsOf, Ordered, Apply;
    MomentStep(plan, x, k);
    OrderedChanges(plan, Moment(plan, x, k), EffectsOf(plan, x)[k]);
  }

  lemma OrderedChanges(plan: Plan, w: World, e: Effect)
    requires Accepts(w, e) && Ordered(plan, w, e)
    ensures InOrder(plan, w, Apply(w, e))
  {
    hide Expected;
  }

  // --------------------------------------------------- when nothing is replaced

  /** Everything public in `w` is still there, unchanged, in `w'`, and a final release is final. */
  ghost predicate Preserved(w: World, w': World) {
    && (w.remoteTag.Some? ==> w'.remoteTag == w.remoteTag)
    && (forall k | k in w.pypi :: k in w'.pypi && w'.pypi[k] == w.pypi[k])
    && (forall n | n in w.images :: n in w'.images && w'.images[n] == w.images[n])
    && (forall s | s in w.signed :: s in w'.signed)
    && (w.release.Some? ==>
          && w'.release.Some?
          && (!w.release.value.draft ==> !w'.release.value.draft)
          && forall n | n in w.release.value.assets ::
               n in w'.release.value.assets && w'.release.value.assets[n] == w.release.value.assets[n])
  }

  /** From any moment of the run to any later one, nothing public is replaced or taken away. */
  ghost predicate ReplacesNothing(plan: Plan, x: External)
    requires WellFormed(plan)
  {
    forall j, k | 0 <= j <= k <= |EffectsOf(plan, x)| :: Preserved(Moment(plan, x, j), Moment(plan, x, k))
  }

  lemma FreshPreserves(w: World, e: Effect)
    requires Accepts(w, e) && Fresh(w, e)
    ensures Preserved(w, Apply(w, e))
  {
  }

  lemma PreservedJoin(a: World, b: World, c: World)
    requires Preserved(a, b) && Preserved(b, c)
    ensures Preserved(a, c)
  {
  }

  lemma {:induction false} KeepingPreserves(plan: Plan, x: External, j: nat, k: nat)
    requires WellFormed(plan) && Lawful(plan, x.world, EffectsOf(plan, x), true) && j <= k <= |EffectsOf(plan, x)|
    ensures Preserved(Moment(plan, x, j), Moment(plan, x, k))
    decreases k
  {
    hide Lawful, Replay, EffectsOf, Fresh, Accepts, Apply, Preserved;
    if j == k {
      PreservedSelf(Moment(plan, x, j));
    } else {
      KeepingPreserves(plan, x, j, k - 1);
      LawfulAt(plan, x.world, EffectsOf(plan, x), k - 1, true);
      MomentStep(plan, x, k - 1);
      FreshPreserves(Moment(plan, x, k - 1), EffectsOf(plan, x)[k - 1]);
      PreservedJoin(Moment(plan, x, j), Moment(plan, x, k - 1), Moment(plan, x, k));
    }
  }

  lemma PreservedSelf(w: World)
    ensures Preserved(w, w)
  {
  }

  /** Where nothing is replaced, two copies under one name have one digest. */
  lemma CopiesAgree(plan: Plan, x: External, i: ImageRef, j: ImageRef)
    requires WellFormed(plan) && ReplacesNothing(plan, x) && i.name == j.name
    requires CopyImage(i) in EffectsOf(plan, x) && CopyImage(j) in EffectsOf(plan, x)
    ensures i.digest == j.digest
  {
    hide EffectsOf, Moment;
    var effects := EffectsOf(plan, x);
    var a :| 0 <= a < |effects| && effects[a] == CopyImage(i);
    var b :| 0 <= b < |effects| && effects[b] == CopyImage(j);
    MomentStep(plan, x, a);
    MomentStep(plan, x, b);
    var first, last := if a < b then a + 1 else b + 1, if a < b then b + 1 else a + 1;
    assert Preserved(Moment(plan, x, first), Moment(plan, x, last));
    assert Moment(plan, x, a + 1).images[i.name] == i.digest;
    assert Moment(plan, x, b + 1).images[j.name] == j.digest;
  }

  lemma RunImageCopies(i: ImageRef, x: External)
    requires x.faults == []
    ensures var r := RunImage(i, {}, x);
            r.ok && r.x.faults == [] && r.x.log == x.log + [CopyImage(i), SignImage(i)]
  {
    SinglePerform(Consume(x), CopyImage(i), 1);
    SinglePerform(Consume(RunCommand(x, [CopyImage(i)]).x), SignImage(i), 1);
  }

  /** Without failures every image whose tag was absent is copied. */
  lemma {:induction false} CopiesAll(plan: Plan, images: seq<ImageRef>, x: External)
    requires x.faults == []
    ensures var log := RunCommands(ImageCommandList(images, {}), Some(ImageCheck(plan)), x).x.log;
            |x.log| <= |log| && log[..|x.log|] == x.log && forall i | i in images :: CopyImage(i) in log[|x.log|..]
    decreases images
  {
    hide RunImage;
    if images == [] {
      PublishedImagesFacts(plan.images, x);
    } else {
      RunImagesUnfold(images, {}, Some(ImageCheck(plan)), x);
      RunImageCopies(images[0], x);
      var y := RunImage(images[0], {}, x).x;
      CopiesAll(plan, images[1..], y);
      var log := RunCommands(ImageCommandList(images, {}), Some(ImageCheck(plan)), x).x.log;
      assert log[..|y.log|] == y.log;
      assert log[|x.log|] == CopyImage(images[0]);
      assert images == [images[0]] + images[1..];
      forall i | i in images ensures CopyImage(i) in log[|x.log|..] {
        if i != images[0] {
          var k :| 0 <= k < |log[|y.log|..]| && log[|y.log|..][k] == CopyImage(i);
          assert log[|x.log|..][k + 2] == CopyImage(i);
        } else {
          assert log[|x.log|..][0] == CopyImage(i);
        }
      }
      hide RunCommands;
    }
  }

  /** All distributions already on PyPI. */
  function PypiWith(dists: seq<Dist>): map<PypiKey, Digest> {
    if dists == [] then map[]
    else PypiWith(dists[..|dists| - 1])[dists[|dists| - 1].key := dists[|dists| - 1].digest]
  }

  lemma {:induction false} PypiWithFacts(dists: seq<Dist>)
    requires DistinctKeys(dists)
    ensures forall d | d in dists :: d.key in PypiWith(dists) && PypiWith(dists)[d.key] == d.digest
  {
    if dists != [] {
      var init, last := dists[..|dists| - 1], dists[|dists| - 1];
      PypiWithFacts(init);
      forall d | d in init ensures d.key != last.key {
        var k :| 0 <= k < |init| && init[k] == d;
        assert dists[k] == d;
      }
      assert dists == init + [last];
    }
  }

  /** A world where the tag and all distributions are public and nothing else is. */
  function ReadyForImages(plan: Plan): World {
    World(None, Some(plan.commit), PypiWith(plan.dists), map[], {}, None)
  }

  lemma ReachesImages(plan: Plan) returns (p2: Progress)
    requires WellFormed(plan)
    ensures !p2.aborted && p2.x.faults == [] && p2.x.world.images == map[] && BeforeImages(plan, p2.x.world)
    ensures RunPlan(plan, true, External(ReadyForImages(plan), [], [])) == Rest(plan, p2, 2)
  {
    hide Step1, Step2, Step3, Step4, RunPlan, Trace, AddedDists;
    var x := External(ReadyForImages(plan), [], []);
    PypiWithFacts(plan.dists);
    RunIsRest(plan, x);
    var start := Progress([], false, x);
    var _ := Step1Run(plan, start, false);
    var p1 := Step1(plan, true, start).p;
    var _ := Step2Run(plan, p1, false);
    p2 := Step2(plan, true, p1).p;
    assert Rest(plan, p1, 1) == Rest(plan, p2, 2);
  }

  predicate BeforeImages(plan: Plan, w: World) { Tagged(plan, w) && OnPypi(plan.dists, w) }

  lemma RestExtendsLog(plan: Plan, p3: Progress)
    requires p3.aborted || BeforeRelease(plan, p3.x.world)
    ensures p3.x.log <= Final(Rest(plan, p3, 3)).log
  {
    hide Step4, Lawful, Replay;
    assert Rest(plan, p3, 3) ==
           match Step4(plan, true, p3) case Gate(reason, x) => Gate(reason, x) case Going(p4) => Going(p4);
    if p3.aborted {
      SkippedRelease(plan, p3);
    } else {
      var _ := Step4Run(plan, p3, false);
    }
  }

  lemma SkippedRelease(plan: Plan, p3: Progress)
    requires p3.aborted
    ensures Final(Step4(plan, true, p3)) == p3.x
  {
  }

  lemma ImagesAreCopied(plan: Plan, p2: Progress)
    requires WellFormed(plan) && !p2.aborted && p2.x.faults == [] && p2.x.world.images == map[]
               && BeforeImages(plan, p2.x.world)
    ensures forall i | i in plan.images :: CopyImage(i) in Final(Rest(plan, p2, 2)).log
  {
    hide RunCommands, ImageCommands, Step4;
    ImageCommandsFacts(plan.images, p2.x);
    var pre := PrepareImages(plan, true, p2.x);
    assert p2.x.world.images.Keys == {};
    CopiesAll(plan, plan.images, pre.x);
    var _ := Step3Run(plan, p2, false);
    var p3 := Step3(plan, true, p2).p;
    assert Rest(plan, p2, 2) == Rest(plan, p3, 3);
    assert p3.x.log == RunCommands(pre.commands, Some(ImageCheck(plan)), pre.x).x.log;
    RestExtendsLog(plan, p3);
    forall i | i in plan.images ensures CopyImage(i) in Final(Rest(plan, p2, 2)).log {
      assert CopyImage(i) in p3.x.log[|pre.x.log|..];
    }
  }

  /** No run ever replaces anything public exactly when no two images of the plan share a
      name with different digests. `validate_bom` does not rule such a pair out. */
  lemma NothingReplacedIff(plan: Plan)
    requires WellFormed(plan)
    ensures (forall x :: ReplacesNothing(plan, x)) <==> ImagesAgree(plan)
  {
    hide Lawful, Replay, RunPlan, Rest, ReplacesNothing;
    if ImagesAgree(plan) {
      forall x ensures ReplacesNothing(plan, x) { AgreeingReplaceNothing(plan, x); }
    }
    if forall x :: ReplacesNothing(plan, x) {
      var x := External(ReadyForImages(plan), [], []);
      var p2 := ReachesImages(plan);
      ImagesAreCopied(plan, p2);
      assert ReplacesNothing(plan, x);
      assert EffectsOf(plan, x) == RunFrom(plan, x).log;
      forall i, j | i in plan.images && j in plan.images && i.name == j.name ensures i.digest == j.digest {
        CopiesAgree(plan, x, i, j);
      }
    }
  }

  lemma AgreeingReplaceNothing(plan: Plan, x: External)
    requires WellFormed(plan) && ImagesAgree(plan)
    ensures ReplacesNothing(plan, x)
  {
    hide Lawful, Replay, RunPlan, Moment, Preserved;
    var delta := PromotionRun(plan, x, true);
    assert EffectsOf(plan, x) == delta;
    forall j, k | 0 <= j <= k <= |EffectsOf(plan, x)| ensures Preserved(Moment(plan, x, j), Moment(plan, x, k)) {
      KeepingPreserves(plan, x, j, k);
    }
  }

  // ------------------------------------------------------------ when a run completes

  /** A run without failures from `w` completes all four steps. */
  predicate Completes(plan: Plan, w: World) {
    var r := RunPlan(plan, true, External(w, [], []));
    r.Going? && AllCompleted(r.p.steps)
  }

  /** Failure-free runs complete from every world that does not contradict the plan exactly
      when the plan is publishable. */
  lemma CompletesIffPublishable(plan: Plan)
    requires WellFormed(plan)
    ensures (forall w | Conforms(plan, w) :: Completes(plan, w)) <==> Publishable(plan)
  {
    hide RunPlan, AllCompleted, Lawful, Replay, DistinctNames, Expected;
    if Publishable(plan) {
      forall w | Conforms(plan, w) ensures Completes(plan, w) {
        var _ := PromotionRun(plan, External(w, [], []), false);
      }
    }
    if forall w | Conforms(plan, w) :: Completes(plan, w) {
      var w := World(None, None, map[], map[], {}, None);
      assert Completes(plan, w);
      var _ := PromotionRun(plan, External(w, [], []), false);
      var w' := RunFrom(plan, External(w, [], [])).world;
      forall f | f in plan.assets ensures f.uploaded == f.digest {
        DistinctExpected(plan.assets, f);
        assert w'.release.value.assets[f.name] == f.uploaded;
      }
    }
  }

  /** A completed run leaves everything public and the release final. */
  lemma CompletedRunsAreDone(plan: Plan, x: External)
    requires WellFormed(plan)
    requires var r := RunPlan(plan, true, x); r.Going? && AllCompleted(r.p.steps)
    ensures Done(plan, RunFrom(plan, x).world)
  {
    hide RunPlan, AllCompleted, Lawful, Replay, Done;
    var _ := PromotionRun(plan, x, false);
  }

  /** Recorded steps are completed ones, then at most one failed, then only not-run ones; a
      gate error comes before any effect. */
  lemma StepsAreAPrefix(plan: Plan, x: External)
    requires WellFormed(plan)
    ensures var r := RunPlan(plan, true, x);
            (r.Gate? ==> r.x == x) && (r.Going? ==> StatusShape(r.p.steps))
  {
    hide RunPlan, AllCompleted, Lawful, Replay, Done, StatusShape;
    var _ := PromotionRun(plan, x, false);
  }
}
