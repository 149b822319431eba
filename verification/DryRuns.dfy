/** What a dry run is worth: it changes nothing, what it plans is a lawful publication that ends
    where a real one does, and no real run does anything it did not announce. */
module DryRuns {
  import opened Options
  import opened Staging
  import opened Publication
  import opened Promotion
  import opened PublishOrder
  import opened PromotionSteps
  import opened PromotionRuns
  import opened PromotionTheorems
  import opened Convergence

  function Flat(commands: seq<seq<Effect>>): seq<Effect> {
    if commands == [] then [] else commands[0] + Flat(commands[1..])
  }

  lemma {:induction false} FlatJoin(a: seq<seq<Effect>>, b: seq<seq<Effect>>)
    ensures Flat(a + b) == Flat(a) + Flat(b)
  {
    if a == [] {
      assert a + b == b;
    } else {
      FlatJoin(a[1..], b);
      assert (a + b)[1..] == a[1..] + b;
    }
  }

  /** The effects of all recorded commands, in order. */
  function Announced(steps: seq<StepResult>): seq<Effect> {
    if steps == [] then [] else Flat(steps[0].commands) + Announced(steps[1..])
  }

  function DryRun(plan: Plan, x: External): Run { RunPlan(plan, false, x) }

  // ------------------------------------------------------ what the steps announce

  function SeenTag(x: External): Option<Digest> { if Next(x).Works? then x.world.localTag else None }

  function TagEffects(plan: Plan, local: Option<Digest>): seq<Effect> {
    (if local.Some? then [] else [TagLocally(plan.commit)]) + [PushTag]
  }

  function Copies(images: seq<ImageRef>): seq<Effect> {
    seq(|images|, k requires 0 <= k < |images| => CopyImage(images[k]))
  }

  function Signs(images: seq<ImageRef>): seq<Effect> {
    seq(|images|, k requires 0 <= k < |images| => SignImage(images[k]))
  }

  lemma {:induction false} FlatSingles(commands: seq<seq<Effect>>, effects: seq<Effect>)
    requires |commands| == |effects| && forall k | 0 <= k < |effects| :: commands[k] == [effects[k]]
    ensures Flat(commands) == effects
    decreases effects
  {
    if effects != [] {
      FlatSingles(commands[1..], effects[1..]);
    }
  }

  lemma FlatOne(command: seq<Effect>)
    ensures Flat([command]) == command
  {
    assert [command][1..] == [];
    assert command + [] == command;
  }

  /** The four steps' commands, as effects. */
  function Announcement(plan: Plan, local: Option<Digest>): seq<Effect> {
    TagEffects(plan, local) + Uploads(plan.dists) + (Copies(plan.images) + Signs(plan.images))
    + Flat(ReleaseCommands(plan, None))
  }

  lemma AnnouncedIs(plan: Plan, x: External)
    requires DryRun(plan, x).Going?
    ensures Announced(DryRun(plan, x).p.steps) == Announcement(plan, SeenTag(x))
  {
    hide ReleaseCommands;
    DryRunTouchesNothing(plan, x);
    var steps := DryRun(plan, x).p.steps;
    StepCommands(plan, x);
    hide RunPlan;
    var tag := TagEffects(plan, SeenTag(x));
    FlatSingles(steps[0].commands, tag);
    FlatOne(Uploads(plan.dists));
    FlatSingles(steps[2].commands, Copies(plan.images) + Signs(plan.images));
    assert steps == [steps[0], steps[1], steps[2], steps[3]];
    FourAnnounced(steps[0], steps[1], steps[2], steps[3]);
  }

  lemma FourAnnounced(a: StepResult, b: StepResult, c: StepResult, d: StepResult)
    ensures Announced([a, b, c, d]) ==
            Flat(a.commands) + Flat(b.commands) + Flat(c.commands) + Flat(d.commands)
  {
    assert [a, b, c, d][1..] == [b, c, d] && [b, c, d][1..] == [c, d] && [c, d][1..] == [d] && [d][1..] == [];
    assert Announced([d]) == Flat(d.commands) + Announced([]) == Flat(d.commands);
    assert Announced([c, d]) == Flat(c.commands) + Announced([d]);
    assert Announced([b, c, d]) == Flat(b.commands) + Announced([c, d]);
    assert Announced([a, b, c, d]) == Flat(a.commands) + Announced([b, c, d]);
  }

  lemma StepCommands(plan: Plan, x: External)
    requires DryRun(plan, x).Going?
    ensures var steps := DryRun(plan, x).p.steps;
            && |steps| == 4
            && |steps[0].commands| == |TagEffects(plan, SeenTag(x))|
            && (forall k | 0 <= k < |steps[0].commands| ::
                  steps[0].commands[k] == [TagEffects(plan, SeenTag(x))[k]])
            && steps[1].commands == [Uploads(plan.dists)]
            && steps[2].commands == DryRunImageCommands(plan.images)
            && steps[3].commands == ReleaseCommands(plan, None)
  {
    hide ReleaseCommands, Uploads, DryRunImageCommands;
    var tag := TagEffects(plan, SeenTag(x));
    assert PrepareTag(plan, false, x).commands == if SeenTag(x).Some? then [[tag[0]]] else [[tag[0]], [tag[1]]];
  }

  // ------------------------------------------------ the announcement, carried out

  lemma {:induction false} PerformsAll(x: External, effects: seq<Effect>, limit: nat)
    ensures Perform(x, effects, limit).ok ==> Perform(x, effects, limit).x.log == x.log + effects
    decreases effects
  {
    if effects != [] && limit > 0 && Accepts(x.world, effects[0]) {
      PerformsAll(x.(world := Apply(x.world, effects[0]), log := x.log + [effects[0]]), effects[1..], limit - 1);
    }
  }

  /** Commands that all ran had all their effects, in order. */
  lemma {:induction false} RanAll(commands: seq<seq<Effect>>, published: Option<External -> Checked>, x: External)
    requires published.Some? ==> forall y :: published.value(y).x.log == y.log
    ensures var r := RunCommands(commands, published, x); r.ok ==> r.x.log == x.log + Flat(commands)
    decreases commands
  {
    if commands != [] {
      var y := if published.Some? && commands[0] == [Finalise] then published.value(x).x else x;
      PerformsAll(Consume(y), commands[0], |commands[0]|);
      RanAll(commands[1..], published, RunCommand(y, commands[0]).x);
    }
  }

  lemma SameDelta(x: External, y: External, a: seq<Effect>, b: seq<Effect>)
    requires y.log == x.log + a && y.log == x.log + b
    ensures a == b
  {
    assert a == y.log[|x.log|..] && b == y.log[|x.log|..];
  }

  /** Nothing is public; the checkout may hold the tag. */
  function Unpublished(local: Option<Digest>): World { World(local, None, map[], map[], {}, None) }

  lemma TagFirst(plan: Plan, local: Option<Digest>) returns (y: External)
    requires local.Some? ==> local.value == plan.commit
    ensures Trace(plan, External(Unpublished(local), [], []), y, TagEffects(plan, local), true)
    ensures y.faults == [] && Tagged(plan, y.world) && FrameTag(Unpublished(local), y.world)
  {
    hide Lawful, Replay, RunCommands, RunCommand;
    var x := External(Unpublished(local), [], []);
    var delta := TagStep(plan, x, true);
    var pre := PrepareTag(plan, true, x);
    var r := RunCommands(pre.commands, None, pre.x);
    y := r.x;
    RanAll(pre.commands, None, pre.x);
    FlatSingles(pre.commands, TagEffects(plan, local));
    SameDelta(x, y, delta, TagEffects(plan, local));
  }

  lemma ThenUploads(plan: Plan, x: External) returns (y: External)
    requires WellFormed(plan) && StableDists(plan.dists)
    requires x.faults == [] && Tagged(plan, x.world) && x.world.pypi == map[]
    ensures Trace(plan, x, y, Uploads(plan.dists), true)
    ensures y.faults == [] && OnPypi(plan.dists, y.world) && FramePypi(x.world, y.world)
  {
    hide Lawful, Replay, Perform, AddedDists;
    var delta := UploadsTrace(plan, x, plan.dists, |plan.dists|, true);
    PerformsAll(x, Uploads(plan.dists), |plan.dists|);
    y := Perform(x, Uploads(plan.dists), |plan.dists|).x;
    SameDelta(x, y, delta, Uploads(plan.dists));
  }

  /** All images copied, tags that point elsewhere left alone. */
  lemma {:induction false} CopiesTrace(plan: Plan, images: seq<ImageRef>, x: External) returns (y: External)
    requires ImagesAgree(plan) && Tagged(plan, x.world) && OnPypi(plan.dists, x.world)
    requires ImagesFit(plan.images, x.world) && forall i | i in images :: i in plan.images
    ensures Trace(plan, x, y, Copies(images), true)
    ensures y.faults == x.faults && y.world == x.world.(images := y.world.images)
    ensures ImagesFit(plan.images, y.world) && x.world.images.Keys <= y.world.images.Keys
    ensures forall i | i in images :: i.name in y.world.images
    decreases images
  {
    hide Lawful, Replay, Trace, ImagesAgree;
    if images == [] {
      y := x;
      TraceNothing(plan, x, y, true);
    } else {
      var e := CopyImage(images[0]);
      assert images == [images[0]] + images[1..];
      var z := x.(world := Apply(x.world, e), log := x.log + [e]);
      CopyKeepsFit(plan, images[0], x.world);
      TraceOne(plan, x, z, e, true);
      y := CopiesTrace(plan, images[1..], z);
      TraceJoin(plan, x, z, y, [e], Copies(images[1..]), true);
      assert [e] + Copies(images[1..]) == Copies(images);
    }
  }

  lemma CopyKeepsFit(plan: Plan, i: ImageRef, w: World)
    requires ImagesAgree(plan) && ImagesFit(plan.images, w) && i in plan.images
    ensures ImagesFit(plan.images, Apply(w, CopyImage(i)))
  {
  }

  lemma {:induction false} SignsTrace(plan: Plan, images: seq<ImageRef>, x: External) returns (y: External)
    requires Tagged(plan, x.world) && OnPypi(plan.dists, x.world)
    requires forall i | i in images ::
               i in plan.images && i.name in x.world.images && x.world.images[i.name] == i.digest
    ensures Trace(plan, x, y, Signs(images), true)
    ensures y.faults == x.faults && y.world == x.world.(signed := y.world.signed) && x.world.signed <= y.world.signed
    ensures forall i | i in images :: (i.name, i.digest) in y.world.signed
    decreases images
  {
    hide Lawful, Replay, Trace;
    if images == [] {
      y := x;
      TraceNothing(plan, x, y, true);
    } else {
      var e := SignImage(images[0]);
      assert images == [images[0]] + images[1..];
      var z := x.(world := Apply(x.world, e), log := x.log + [e]);
      TraceOne(plan, x, z, e, true);
      y := SignsTrace(plan, images[1..], z);
      TraceJoin(plan, x, z, y, [e], Signs(images[1..]), true);
      assert [e] + Signs(images[1..]) == Signs(images);
    }
  }

  lemma ThenImages(plan: Plan, x: External) returns (y: External)
    requires ImagesAgree(plan) && Tagged(plan, x.world) && OnPypi(plan.dists, x.world)
    requires x.faults == [] && x.world.images == map[]
    ensures Trace(plan, x, y, Copies(plan.images) + Signs(plan.images), true)
    ensures y.faults == [] && ImagesUp(plan.images, y.world)
    ensures y.world == x.world.(images := y.world.images, signed := y.world.signed)
  {
    hide Lawful, Replay, Trace, ImagesAgree;
    var z := CopiesTrace(plan, plan.images, x);
    y := SignsTrace(plan, plan.images, z);
    TraceJoin(plan, x, z, y, Copies(plan.images), Signs(plan.images), true);
  }

  lemma ThenRelease(plan: Plan, x: External) returns (y: External)
    requires BeforeRelease(plan, x.world) && x.faults == [] && x.world.release.None?
    requires DistinctNames(plan.assets) && StableAssets(plan.assets)
    ensures Trace(plan, x, y, Flat(ReleaseCommands(plan, None)), true) && Done(plan, y.world)
  {
    hide Lawful, Replay, RunCommands, ReleaseCommands, Done, DistinctNames, StableAssets, ReleaseGrows;
    var delta := CreateAndAttach(plan, x, true);
    var commands := ReleaseCommands(plan, None);
    forall z ensures AssetCheck(plan)(z).x.log == z.log { PublishedAssetsFacts(plan, z); }
    RanAll(commands, Some(AssetCheck(plan)), x);
    y := RunCommands(commands, Some(AssetCheck(plan)), x).x;
    SameDelta(x, y, delta, Flat(commands));
  }

  /** Carried out where nothing is public yet, the announcement obeys the publish order, replaces
      nothing and leaves everything public. */
  lemma AnnouncementDone(plan: Plan, local: Option<Digest>) returns (y: External)
    requires WellFormed(plan) && Publishable(plan) && (local.Some? ==> local.value == plan.commit)
    ensures Trace(plan, External(Unpublished(local), [], []), y, Announcement(plan, local), true) && Done(plan, y.world)
  {
    hide Lawful, Replay, Trace, ReleaseCommands, Done, DistinctNames, StableAssets, StableDists, ImagesAgree;
    var start := External(Unpublished(local), [], []);
    var a := TagFirst(plan, local);
    var b := ThenUploads(plan, a);
    var c := ThenImages(plan, b);
    y := ThenRelease(plan, c);
    var images := Copies(plan.images) + Signs(plan.images);
    TraceJoin(plan, start, a, b, TagEffects(plan, local), Uploads(plan.dists), true);
    TraceJoin(plan, start, b, c, TagEffects(plan, local) + Uploads(plan.dists), images, true);
    TraceJoin(plan, start, c, y, TagEffects(plan, local) + Uploads(plan.dists) + images,
              Flat(ReleaseCommands(plan, None)), true);
  }

  /** What a dry run of a publishable plan announces is a lawful publication: carried out where
      nothing is public yet, it ends in the public state a real run without failures ends in. */
  lemma DryRunForetells(plan: Plan, x: External)
    requires WellFormed(plan) && Publishable(plan) && DryRun(plan, x).Going?
    ensures var start, effects := Unpublished(SeenTag(x)), Announced(DryRun(plan, x).p.steps);
            && Lawful(plan, start, effects, true)
            && Replay(start, effects).Some? && Done(plan, Replay(start, effects).value)
            && Public(Replay(start, effects).value) == Public(RunFrom(plan, External(start, [], [])).world)
  {
    hide Lawful, Replay, RunPlan, Done, Announced, Publishable, Grown, ReleaseCommands;
    var local := SeenTag(x);
    var start := Unpublished(local);
    DryRunTouchesNothing(plan, x);
    AnnouncedIs(plan, x);
    var y := AnnouncementDone(plan, local);
    assert StableDists(plan.dists) && StableAssets(plan.assets) by { PublishableIsStable(plan); }
    LawfulGrows(plan, start, Announcement(plan, local));
    SessionGrows(plan, start, Session(false, []));
    FaultFreeFinishes(plan, start, false);
    FinishedWorldsAgree(plan, start, y.world, AfterSession(plan, start, Session(false, [])));
  }

  lemma PublishableIsStable(plan: Plan)
    requires Publishable(plan)
    ensures StableDists(plan.dists) && StableAssets(plan.assets)
  {
  }

  // ------------------------------------------------------- nothing is unannounced

  /** The effect is in the announcement; a stub is what is left of an announced upload, and a
      checkout without the tag gets it. */
  predicate Foreseen(plan: Plan, announced: seq<Effect>, e: Effect) {
    match e
    case LeaveStub(f) => UploadAsset(f) in announced
    case TagLocally(commit) => commit == plan.commit
    case _ => e in announced
  }

  /** Every effect of every real run, whatever fails in it, was announced by every dry run that
      was not gated. */
  lemma NothingUnannounced(plan: Plan, x: External, y: External)
    requires WellFormed(plan) && DryRun(plan, x).Going?
    ensures forall e | e in EffectsOf(plan, y) :: Foreseen(plan, Announced(DryRun(plan, x).p.steps), e)
  {
    hide Lawful, Replay, RunPlan, Foreseen, Announcement;
    AnnouncedIs(plan, x);
    EveryRunIsOrdered(plan, y);
    LawfulIsForeseen(plan, SeenTag(x), y.world, EffectsOf(plan, y));
  }

  lemma {:induction false} LawfulIsForeseen(plan: Plan, local: Option<Digest>, w: World, log: seq<Effect>)
    requires Lawful(plan, w, log, false)
    ensures forall e | e in log :: Foreseen(plan, Announcement(plan, local), e)
    decreases log
  {
    hide Foreseen, Announcement;
    if log != [] {
      OrderedIsForeseen(plan, local, w, log[0]);
      LawfulIsForeseen(plan, local, Apply(w, log[0]), log[1..]);
      assert log == [log[0]] + log[1..];
    }
  }

  lemma OrderedIsForeseen(plan: Plan, local: Option<Digest>, w: World, e: Effect)
    requires Ordered(plan, w, e)
    ensures Foreseen(plan, Announcement(plan, local), e)
  {
    hide Tagged, OnPypi, BeforeRelease, Attached, ReleaseCommands, Flat;
    var tag, uploads, images := TagEffects(plan, local), Uploads(plan.dists), Copies(plan.images) + Signs(plan.images);
    var last := Flat(ReleaseCommands(plan, None));
    ReleaseEffects(plan);
    assert Announcement(plan, local) == tag + uploads + images + last;
    assert PushTag in tag;
    match e
    case UploadDist(d) =>
      var k :| 0 <= k < |plan.dists| && plan.dists[k] == d;
      assert uploads[k] == e;
    case CopyImage(i) =>
      var k :| 0 <= k < |plan.images| && plan.images[k] == i;
      assert Copies(plan.images)[k] == e;
    case SignImage(i) =>
      var k :| 0 <= k < |plan.images| && plan.images[k] == i;
      assert Signs(plan.images)[k] == e;
    case _ =>
  }

  lemma ReleaseEffects(plan: Plan)
    ensures var effects := Flat(ReleaseCommands(plan, None));
            CreateRelease in effects && Finalise in effects && forall f | f in plan.assets :: UploadAsset(f) in effects
  {
    var uploads := AssetUploads(plan.assets, {});
    FlatJoin([[CreateRelease]] + uploads, [[Finalise]]);
    FlatJoin([[CreateRelease]], uploads);
    FlatOne([CreateRelease]);
    FlatOne([Finalise]);
    UploadsAll(plan.assets);
    assert CreateRelease in [CreateRelease] && Finalise in [Finalise];
  }

  lemma {:induction false} UploadsAll(assets: seq<File>)
    ensures forall f | f in assets :: UploadAsset(f) in Flat(AssetUploads(assets, {}))
  {
    if assets != [] {
      UploadsAll(assets[1..]);
      assert assets == [assets[0]] + assets[1..];
      FlatJoin([[UploadAsset(assets[0])]], AssetUploads(assets[1..], {}));
      FlatOne([UploadAsset(assets[0])]);
      assert UploadAsset(assets[0]) in [UploadAsset(assets[0])];
    }
  }
}
