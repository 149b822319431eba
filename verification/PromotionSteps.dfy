/** Why each of the four publish steps obeys the publish order, whatever fails, and what it
    achieves when it completes. */
module PromotionSteps {
  import opened Options
  import opened Staging
  import opened Publication
  import opened Promotion
  import opened PublishOrder

  // ------------------------------------------------------------- step 1: the tag

  lemma PushTrace(plan: Plan, x: External, keeping: bool) returns (delta: seq<Effect>)
    requires x.world.remoteTag.None? && (x.world.localTag.Some? ==> x.world.localTag == Some(plan.commit))
    ensures var r := RunCommands([[PushTag]], None, x);
            && Trace(plan, x, r.x, delta, keeping) && FrameTag(x.world, r.x.world)
            && (r.ok ==> Tagged(plan, r.x.world))
            && (x.faults == [] ==> r.x.faults == [] && (x.world.localTag.Some? ==> r.ok))
  {
    assert [[PushTag]][1..] == [];
    delta := PlainCommand(plan, x, PushTag, keeping);
  }

  lemma TagAndPushTrace(plan: Plan, x: External, keeping: bool) returns (delta: seq<Effect>)
    requires x.world.remoteTag.None?
    ensures var r := RunCommands([[TagLocally(plan.commit)], [PushTag]], None, x);
            && Trace(plan, x, r.x, delta, keeping) && FrameTag(x.world, r.x.world)
            && (r.ok ==> Tagged(plan, r.x.world))
            && (x.faults == [] && x.world.localTag.None? ==> r.x.faults == [] && r.ok)
  {
    var tagged := RunCommand(x, [TagLocally(plan.commit)]);
    assert [[TagLocally(plan.commit)], [PushTag]][1..] == [[PushTag]];
    delta := PlainCommand(plan, x, TagLocally(plan.commit), keeping);
    if tagged.ok {
      var pushed := PushTrace(plan, tagged.x, keeping);
      TraceJoin(plan, x, tagged.x, RunCommands([[PushTag]], None, tagged.x).x, delta, pushed, keeping);
      delta := delta + pushed;
    }
  }

  /** The step touches only the two tags. */
  predicate FrameTag(w: World, w': World) {
    w' == w.(localTag := w'.localTag, remoteTag := w'.remoteTag)
  }

  lemma TagStep(plan: Plan, x: External, keeping: bool) returns (delta: seq<Effect>)
    ensures var pre := PrepareTag(plan, true, x);
            pre.Ready? ==>
              var r := RunCommands(pre.commands, None, pre.x);
              && Trace(plan, x, r.x, delta, keeping) && FrameTag(x.world, r.x.world)
              && (r.ok ==> Tagged(plan, r.x.world))
              && (x.faults == [] ==> r.x.faults == [] && r.ok)
    ensures x.faults == [] && LocalFits(plan, x.world) && RemoteFits(plan, x.world) ==> PrepareTag(plan, true, x).Ready?
  {
    delta := [];
    var pre := PrepareTag(plan, true, x);
    if pre.Ready? {
      TraceNothing(plan, x, pre.x, keeping);
      if pre.commands == [[PushTag]] {
        delta := PushTrace(plan, pre.x, keeping);
      } else if pre.commands == [[TagLocally(plan.commit)], [PushTag]] {
        delta := TagAndPushTrace(plan, pre.x, keeping);
      }
    }
  }

  predicate LocalFits(plan: Plan, w: World) { w.localTag.Some? ==> w.localTag.value == plan.commit }

  predicate RemoteFits(plan: Plan, w: World) { w.remoteTag.Some? ==> w.remoteTag.value == plan.commit }

  // ----------------------------------------------------------- step 2: PyPI files

  ghost predicate DistinctKeys(dists: seq<Dist>) {
    forall i, j | 0 <= i < j < |dists| :: dists[i].key != dists[j].key
  }

  predicate PypiFits(dists: seq<Dist>, w: World) {
    forall d | d in dists && d.key in w.pypi :: w.pypi[d.key] == d.digest
  }

  predicate StableDists(dists: seq<Dist>) {
    forall d | d in dists :: d.uploaded == d.digest
  }

  lemma {:induction false} MissingReads(dists: seq<Dist>, x: External)
    ensures MissingPypi(dists, x).x.world == x.world && MissingPypi(dists, x).x.log == x.log
    ensures x.faults == [] ==> MissingPypi(dists, x).x.faults == []
    ensures x.faults == [] && PypiFits(dists, x.world) ==> MissingPypi(dists, x).Lists?
  {
    if dists != [] {
      MissingReads(dists[1..], Read(x).x);
      assert dists[0] in dists && forall d | d in dists[1..] :: d in dists;
    }
  }

  /** The files listed as missing: those of `dists`, in order, that `w` lacks. */
  function Lacking(dists: seq<Dist>, w: World): seq<Dist> {
    if dists == [] then []
    else (if dists[0].key in w.pypi then [] else [dists[0]]) + Lacking(dists[1..], w)
  }

  lemma {:induction false} MissingAreLacking(dists: seq<Dist>, x: External)
    ensures var m := MissingPypi(dists, x); m.Lists? ==>
            m.missing == Lacking(dists, x.world) && PypiFits(dists, x.world)
  {
    if dists != [] {
      MissingAreLacking(dists[1..], Read(x).x);
      assert dists == [dists[0]] + dists[1..];
    }
  }

  lemma {:induction false} LackingFacts(dists: seq<Dist>, w: World)
    ensures forall d | d in Lacking(dists, w) :: d in dists && d.key !in w.pypi
    ensures forall d | d in dists :: d in Lacking(dists, w) || d.key in w.pypi
    ensures DistinctKeys(dists) ==> DistinctKeys(Lacking(dists, w))
  {
    if dists != [] {
      LackingFacts(dists[1..], w);
      assert dists == [dists[0]] + dists[1..];
    }
  }

  lemma MissingFacts(dists: seq<Dist>, x: External)
    ensures MissingPypi(dists, x).x.world == x.world && MissingPypi(dists, x).x.log == x.log
    ensures var m := MissingPypi(dists, x); m.Lists? ==>
              && (forall d | d in m.missing :: d in dists && d.key !in x.world.pypi)
              && (forall d | d in dists :: d in m.missing || d.key in x.world.pypi)
              && PypiFits(dists, x.world)
              && (DistinctKeys(dists) ==> DistinctKeys(m.missing))
    ensures x.faults == [] ==> MissingPypi(dists, x).x.faults == []
    ensures x.faults == [] && PypiFits(dists, x.world) ==> MissingPypi(dists, x).Lists?
  {
    hide MissingPypi, Lacking, DistinctKeys;
    MissingReads(dists, x);
    MissingAreLacking(dists, x);
    LackingFacts(dists, x.world);
  }

  lemma {:induction false} PublishedDistsFacts(dists: seq<Dist>, x: External)
    ensures var r := PublishedDists(dists, x);
            && r.x.world == x.world && r.x.log == x.log
            && (r.ok ==> OnPypi(dists, x.world))
            && (x.faults == [] ==> r.x.faults == [] && (OnPypi(dists, x.world) ==> r.ok))
  {
    if dists != [] {
      PublishedDistsFacts(dists[1..], Read(x).x);
      assert dists == [dists[0]] + dists[1..];
    }
  }

  predicate FramePypi(w: World, w': World) {
    w' == w.(pypi := w'.pypi) && forall k | k in w.pypi :: k in w'.pypi && w'.pypi[k] == w.pypi[k]
  }

  ghost predicate AddedDists(dists: seq<Dist>, w: World, w': World) {
    forall k | k in w'.pypi && k !in w.pypi :: exists d | d in dists :: d.key == k && w'.pypi[k] == d.uploaded
  }

  predicate AllUploaded(dists: seq<Dist>, w: World) {
    forall d | d in dists :: d.key in w.pypi && w.pypi[d.key] == d.uploaded
  }

  predicate AllMissing(plan: Plan, dists: seq<Dist>, w: World) {
    forall d | d in dists :: d in plan.dists && d.key !in w.pypi
  }

  lemma UploadFrames(dists: seq<Dist>, w: World, w1: World, w2: World)
    requires dists != [] && w1 == w.(pypi := w.pypi[dists[0].key := dists[0].uploaded]) && dists[0].key !in w.pypi
    requires FramePypi(w1, w2) && AddedDists(dists[1..], w1, w2)
    ensures FramePypi(w, w2) && AddedDists(dists, w, w2)
    ensures AllUploaded(dists[1..], w2) ==> AllUploaded(dists, w2)
  {
    assert dists == [dists[0]] + dists[1..];
    forall k | k in w2.pypi && k !in w.pypi ensures exists d | d in dists :: d.key == k && w2.pypi[k] == d.uploaded {
      if k == dists[0].key { assert w2.pypi[k] == dists[0].uploaded; }
    }
  }

  lemma RestMissing(plan: Plan, dists: seq<Dist>, w: World, w1: World)
    requires dists != [] && DistinctKeys(dists) && AllMissing(plan, dists, w)
    requires w1 == w.(pypi := w.pypi[dists[0].key := dists[0].uploaded])
    ensures DistinctKeys(dists[1..]) && AllMissing(plan, dists[1..], w1)
  {
    forall d | d in dists[1..] ensures d.key != dists[0].key {
      var i :| 0 <= i < |dists| - 1 && dists[1..][i] == d;
      assert dists[i + 1] == d;
    }
  }

  lemma {:induction false} UploadsTrace(plan: Plan, x: External, dists: seq<Dist>, limit: nat, keeping: bool)
    returns (delta: seq<Effect>)
    requires Tagged(plan, x.world) && DistinctKeys(dists) && AllMissing(plan, dists, x.world)
    ensures var r := Perform(x, Uploads(dists), limit);
            && Trace(plan, x, r.x, delta, keeping) && FramePypi(x.world, r.x.world)
                && AddedDists(dists, x.world, r.x.world)
            && (r.ok ==> AllUploaded(dists, r.x.world))
            && r.x.faults == x.faults && (limit >= |dists| ==> r.ok)
    decreases dists
  {
    hide Trace, Lawful, Replay, DistinctKeys;
    delta := [];
    TraceNothing(plan, x, x, keeping);
    if dists != [] && limit > 0 {
      var d := dists[0];
      var y := x.(world := Apply(x.world, UploadDist(d)), log := x.log + [UploadDist(d)]);
      assert Uploads(dists)[1..] == Uploads(dists[1..]);
      TraceOne(plan, x, y, UploadDist(d), keeping);
      RestMissing(plan, dists, x.world, y.world);
      var rest := UploadsTrace(plan, y, dists[1..], limit - 1, keeping);
      var z := Perform(y, Uploads(dists[1..]), limit - 1);
      TraceJoin(plan, x, y, z.x, [UploadDist(d)], rest, keeping);
      delta := [UploadDist(d)] + rest;
      UploadFrames(dists, x.world, y.world, z.x.world);
      assert Perform(x, Uploads(dists), limit) == z;
      hide FramePypi, AddedDists, AllUploaded, Perform;
    }
  }

  /** Cutting off an upload to PyPI is breaking it between two files. */
  lemma CutUploads(x: External, dists: seq<Dist>, limit: nat)
    ensures var cut := Perform(x, CutAfter(Uploads(dists), limit), limit + 1);
            cut.x == Perform(x, Uploads(dists), limit).x
  {
    if limit >= |dists| {
      EnoughLimit(x, Uploads(dists), limit, limit + 1);
    } else {
      assert CutAfter(Uploads(dists), limit) == Uploads(dists)[..limit];
      PrefixPerform(x, Uploads(dists), limit);
    }
  }

  lemma {:induction false} EnoughLimit(x: External, effects: seq<Effect>, m: nat, n: nat)
    requires |effects| <= m && |effects| <= n
    ensures Perform(x, effects, m) == Perform(x, effects, n)
    decreases effects
  {
    if effects != [] && Accepts(x.world, effects[0]) {
      var y := x.(world := Apply(x.world, effects[0]), log := x.log + [effects[0]]);
      EnoughLimit(y, effects[1..], m - 1, n - 1);
    }
  }

  lemma {:induction false} PrefixPerform(x: External, effects: seq<Effect>, limit: nat)
    requires limit <= |effects|
    ensures Perform(x, effects[..limit], limit + 1).x == Perform(x, effects, limit).x
    decreases effects
  {
    if limit > 0 && Accepts(x.world, effects[0]) {
      var y := x.(world := Apply(x.world, effects[0]), log := x.log + [effects[0]]);
      assert effects[..limit][1..] == effects[1..][..limit - 1];
      PrefixPerform(y, effects[1..], limit - 1);
    }
  }

  lemma UploadCommand(plan: Plan, x: External, missing: seq<Dist>, keeping: bool) returns (delta: seq<Effect>)
    requires Tagged(plan, x.world) && DistinctKeys(missing) && AllMissing(plan, missing, x.world)
    ensures var r := RunCommand(x, Uploads(missing));
            && Trace(plan, x, r.x, delta, keeping) && FramePypi(x.world, r.x.world)
                && AddedDists(missing, x.world, r.x.world)
            && (r.ok ==> AllUploaded(missing, r.x.world))
            && (x.faults == [] ==> r.x.faults == [] && r.ok)
  {
    hide FramePypi, AddedDists, AllUploaded, AllMissing, Lawful, Replay;
    var limit := match Next(x) case Works => |missing| case Breaks(applied) => applied case CutsOff(applied) => applied;
    if Next(x).CutsOff? { CutUploads(Consume(x), missing, limit); }
    delta := UploadsTrace(plan, Consume(x), missing, limit, keeping);
  }

  /** What step 2 does to the world, once its commands run from `x` to `r`. */
  ghost predicate PypiRan(plan: Plan, x: External, r: Checked) {
    && FramePypi(x.world, r.x.world) && AddedDists(plan.dists, x.world, r.x.world)
    && (r.ok ==> OnPypi(plan.dists, r.x.world))
    && (r.ok ==> forall d | d in plan.dists && d.key !in x.world.pypi :: r.x.world.pypi[d.key] == d.uploaded)
    && (x.faults == [] ==> r.x.faults == [] && (StableDists(plan.dists) || OnPypi(plan.dists, x.world) ==> r.ok))
  }

  lemma PypiStep(plan: Plan, x: External, keeping: bool) returns (delta: seq<Effect>)
    requires Tagged(plan, x.world) && DistinctKeys(plan.dists)
    ensures var pre := PreparePypi(plan, true, x);
            pre.Ready? ==>
              var r := RunCommands(pre.commands, Some(PypiCheck(plan)), pre.x);
              Trace(plan, x, r.x, delta, keeping) && PypiRan(plan, x, r)
    ensures x.faults == [] && PypiFits(plan.dists, x.world) ==> PreparePypi(plan, true, x).Ready?
  {
    hide Trace, Lawful, Replay, MissingPypi, DistinctKeys, RunCommand;
    delta := [];
    var pre := PreparePypi(plan, true, x);
    MissingFacts(plan.dists, x);
    if pre.Ready? {
      var missing := MissingPypi(plan.dists, x).missing;
      TraceNothing(plan, x, pre.x, keeping);
      if missing == [] {
        PublishedDistsFacts(plan.dists, pre.x);
        TraceNothing(plan, x, RunCommands(pre.commands, Some(PypiCheck(plan)), pre.x).x, keeping);
      } else {
        delta := UploadCommand(plan, pre.x, missing, keeping);
        var y := RunCommand(pre.x, Uploads(missing));
        TraceJoin(plan, x, pre.x, y.x, [], delta, keeping);
        assert [] + delta == delta;
        UploadThenCheck(plan, pre.x, missing);
        TraceSameWorld(plan, x, y.x, RunCommands(pre.commands, Some(PypiCheck(plan)), pre.x).x, delta, keeping);
      }
    }
  }

  lemma TraceSameWorld(plan: Plan, x: External, y: External, z: External, delta: seq<Effect>, keeping: bool)
    requires Trace(plan, x, y, delta, keeping) && z.world == y.world && z.log == y.log
    ensures Trace(plan, x, z, delta, keeping)
  {
  }

  lemma UploadThenCheck(plan: Plan, x: External, missing: seq<Dist>)
    requires missing != [] && AllMissing(plan, missing, x.world) && PypiFits(plan.dists, x.world)
    requires forall d | d in plan.dists :: d in missing || d.key in x.world.pypi
    requires var y := RunCommand(x, Uploads(missing));
             && FramePypi(x.world, y.x.world) && AddedDists(missing, x.world, y.x.world)
             && (y.ok ==> AllUploaded(missing, y.x.world)) && (x.faults == [] ==> y.x.faults == [] && y.ok)
    ensures var y, r := RunCommand(x, Uploads(missing)), RunCommands([Uploads(missing)], Some(PypiCheck(plan)), x);
            PypiRan(plan, x, r) && r.x.world == y.x.world && r.x.log == y.x.log
  {
    hide RunCommand;
    var upload: seq<Effect> := Uploads(missing);
    var none: seq<seq<Effect>> := [upload][1..];
    assert none == [] && upload[0] == UploadDist(missing[0]);
    PublishedDistsFacts(plan.dists, RunCommand(x, upload).x);
  }

  // ------------------------------------------------------------- step 3: images

  predicate ImagesFit(images: seq<ImageRef>, w: World) {
    forall i | i in images && i.name in w.images :: w.images[i.name] == i.digest
  }

  /** No two images of the plan put different digests under one name. */
  predicate ImagesAgree(plan: Plan) {
    forall i, j | i in plan.images && j in plan.images && i.name == j.name :: i.digest == j.digest
  }

  function ImageCommandList(images: seq<ImageRef>, present: set<string>): seq<seq<Effect>> {
    if images == [] then []
    else (if images[0].name in present then [] else [[CopyImage(images[0])]])
         + [[SignImage(images[0])]] + ImageCommandList(images[1..], present)
  }

  lemma {:induction false} ImageCommandsFacts(images: seq<ImageRef>, x: External)
    ensures var pre := ImageCommands(images, x);
            && !pre.Blocked?
            && (pre.Ready? ==>
                  && pre.commands == ImageCommandList(images, x.world.images.Keys) && ImagesFit(images, x.world)
                  && pre.x.world == x.world && pre.x.log == x.log)
            && (pre.Unready? ==> pre.x.world == x.world && pre.x.log == x.log)
            && (x.faults == [] ==> (ImagesFit(images, x.world) ==> pre.Ready? && pre.x.faults == []))
  {
    if images != [] {
      ImageCommandsFacts(images[1..], Read(x).x);
      assert images == [images[0]] + images[1..];
    }
  }

  lemma {:induction false} PublishedImagesFacts(images: seq<ImageRef>, x: External)
    ensures var r := PublishedImages(images, x);
            && r.x.world == x.world && r.x.log == x.log
            && (r.ok ==> ImagesUp(images, x.world))
            && (x.faults == [] ==> r.x.faults == [] && (ImagesUp(images, x.world) ==> r.ok))
  {
    if images != [] {
      PublishedImagesFacts(images[1..], Read(Read(x).x).x);
      assert images == [images[0]] + images[1..];
    }
  }

  predicate FrameImages(w: World, w': World) {
    w' == w.(images := w'.images, signed := w'.signed) && w.signed <= w'.signed && w.images.Keys <= w'.images.Keys
  }

  /** Before the commands for `images` run: what was present fits, what was added is the plan's. */
  ghost predicate ImagesUnderway(plan: Plan, images: seq<ImageRef>, present: set<string>, w: World) {
    && Tagged(plan, w) && OnPypi(plan.dists, w)
    && (forall i | i in images :: i in plan.images)
    && present <= w.images.Keys
    && (forall i | i in images && i.name in present :: w.images[i.name] == i.digest)
    && (forall n | n in w.images && n !in present ::
          exists i | i in plan.images :: i.name == n && w.images[n] == i.digest)
  }

  /** Only images and signatures change; present tags stay, new subjects are the plan's. */
  ghost predicate ImagesGrow(plan: Plan, present: set<string>, w: World, w': World) {
    && FrameImages(w, w')
    && (forall n | n in present :: n in w.images && w'.images[n] == w.images[n])
    && (forall s | s in w'.signed && s !in w.signed :: exists i | i in plan.images :: s == (i.name, i.digest))
  }

  function RunImage(i: ImageRef, present: set<string>, x: External): Checked {
    if i.name in present then RunCommand(x, [SignImage(i)])
    else
      var copied := RunCommand(x, [CopyImage(i)]);
      if !copied.ok then copied else RunCommand(copied.x, [SignImage(i)])
  }

  lemma RunImagesUnfold(images: seq<ImageRef>, present: set<string>, published: Option<External -> Checked>,
                        x: External)
    requires images != []
    ensures RunCommands(ImageCommandList(images, present), published, x) ==
            var r := RunImage(images[0], present, x);
            if !r.ok then r else RunCommands(ImageCommandList(images[1..], present), published, r.x)
  {
    hide RunCommand, RunCommands;
    var i, rest := images[0], ImageCommandList(images[1..], present);
    assert ([[SignImage(i)]] + rest)[1..] == rest;
    if i.name !in present {
      var all := [[CopyImage(i)]] + ([[SignImage(i)]] + rest);
      assert ImageCommandList(images, present) == all && all[1..] == [[SignImage(i)]] + rest;
      RunFirst(all, CopyImage(i), published, x);
      RunFirst([[SignImage(i)]] + rest, SignImage(i), published, RunCommand(x, [CopyImage(i)]).x);
    } else {
      assert ImageCommandList(images, present) == [[SignImage(i)]] + rest;
      RunFirst([[SignImage(i)]] + rest, SignImage(i), published, x);
    }
  }

  /** A command other than the end of the draft runs without a check before it. */
  lemma RunFirst(commands: seq<seq<Effect>>, e: Effect, published: Option<External -> Checked>, x: External)
    requires commands != [] && commands[0] == [e] && e != Finalise
    ensures RunCommands(commands, published, x) ==
            var r := RunCommand(x, [e]);
            if !r.ok then r else RunCommands(commands[1..], published, r.x)
  {
    assert commands[0][0] != Finalise;
  }

  /** Copy and sign one image. */
  lemma ImageStep(plan: Plan, images: seq<ImageRef>, present: set<string>, x: External, keeping: bool)
    returns (delta: seq<Effect>)
    requires images != [] && ImagesUnderway(plan, images, present, x.world) && (keeping ==> ImagesAgree(plan))
    ensures var r := RunImage(images[0], present, x);
            && Trace(plan, x, r.x, delta, keeping) && ImagesGrow(plan, present, x.world, r.x.world)
            && ImagesUnderway(plan, images[1..], present, r.x.world)
            && (ImagesAgree(plan) ==> forall j | j in plan.images && ImagesUp([j], x.world) :: ImagesUp([j], r.x.world))
            && (r.ok ==> ImagesUp([images[0]], r.x.world))
            && (x.faults == [] ==> r.x.faults == [] && r.ok)
  {
    hide Trace, Lawful, Replay, RunCommand;
    var i := images[0];
    assert images == [i] + images[1..];
    if i.name in present {
      delta := PlainCommand(plan, x, SignImage(i), keeping);
    } else {
      delta := PlainCommand(plan, x, CopyImage(i), keeping);
      var copied := RunCommand(x, [CopyImage(i)]);
      if copied.ok {
        var signed := PlainCommand(plan, copied.x, SignImage(i), keeping);
        TraceJoin(plan, x, copied.x, RunCommand(copied.x, [SignImage(i)]).x, delta, signed, keeping);
        delta := delta + signed;
      }
    }
  }

  lemma ImagesGrowJoin(plan: Plan, present: set<string>, a: World, b: World, c: World)
    requires ImagesGrow(plan, present, a, b) && ImagesGrow(plan, present, b, c)
    ensures ImagesGrow(plan, present, a, c)
  {
  }

  ghost predicate ImagesRan(plan: Plan, prefix: seq<ImageRef>, present: set<string>, x: External, r: Checked) {
    && ImagesGrow(plan, present, x.world, r.x.world) && ImagesUnderway(plan, [], present, r.x.world)
    && (r.ok ==> ImagesUp(plan.images, r.x.world))
    && (x.faults == [] ==> r.x.faults == [] && (ImagesAgree(plan) && ImagesUp(prefix, x.world) ==> r.ok))
  }

  lemma {:induction false} ImagesRun(plan: Plan, prefix: seq<ImageRef>, images: seq<ImageRef>, present: set<string>,
                                     x: External, keeping: bool)
    returns (delta: seq<Effect>)
    requires plan.images == prefix + images && ImagesUnderway(plan, images, present, x.world)
    requires keeping ==> ImagesAgree(plan)
    ensures var r := RunCommands(ImageCommandList(images, present), Some(ImageCheck(plan)), x);
            Trace(plan, x, r.x, delta, keeping) && ImagesRan(plan, prefix, present, x, r)
    decreases images
  {
    hide Trace, Lawful, Replay, RunCommand, RunImage, PublishedImages;
    delta := [];
    if images == [] {
      PublishedImagesFacts(plan.images, x);
      TraceNothing(plan, x, RunCommands(ImageCommandList(images, present), Some(ImageCheck(plan)), x).x, keeping);
    } else {
      RunImagesUnfold(images, present, Some(ImageCheck(plan)), x);
      delta := ImageStep(plan, images, present, x, keeping);
      var y := RunImage(images[0], present, x);
      ImagesUnderwayShrinks(plan, images[1..], present, y.x.world);
      if y.ok {
        assert plan.images == (prefix + [images[0]]) + images[1..];
        var rest := ImagesRun(plan, prefix + [images[0]], images[1..], present, y.x, keeping);
        var z := RunCommands(ImageCommandList(images[1..], present), Some(ImageCheck(plan)), y.x);
        TraceJoin(plan, x, y.x, z.x, delta, rest, keeping);
        ImagesGrowJoin(plan, present, x.world, y.x.world, z.x.world);
        delta := delta + rest;
        PrefixUp(plan, prefix, images[0], x.world, y.x.world);
        hide RunCommands, ImageCommandList, ImagesUnderway, ImagesGrow, ImagesUp, ImagesAgree;
      }
    }
  }

  lemma ImagesUnderwayShrinks(plan: Plan, images: seq<ImageRef>, present: set<string>, w: World)
    requires ImagesUnderway(plan, images, present, w)
    ensures ImagesUnderway(plan, [], present, w)
  {
  }

  lemma PrefixUp(plan: Plan, prefix: seq<ImageRef>, i: ImageRef, w: World, w': World)
    requires forall j | j in prefix :: j in plan.images
    requires ImagesAgree(plan) ==> forall j | j in plan.images && ImagesUp([j], w) :: ImagesUp([j], w')
    requires ImagesUp([i], w')
    ensures ImagesAgree(plan) && ImagesUp(prefix, w) ==> ImagesUp(prefix + [i], w')
  {
    if ImagesAgree(plan) && ImagesUp(prefix, w) {
      forall j | j in prefix ensures ImagesUp([j], w') { assert ImagesUp([j], w); }
      forall j | j in prefix + [i]
        ensures j.name in w'.images && w'.images[j.name] == j.digest && (j.name, j.digest) in w'.signed
      {
        assert ImagesUp([j], w') && j in [j];
      }
    }
  }

  lemma ImageStage(plan: Plan, x: External, keeping: bool) returns (delta: seq<Effect>)
    requires Tagged(plan, x.world) && OnPypi(plan.dists, x.world) && (keeping ==> ImagesAgree(plan))
    ensures var pre := PrepareImages(plan, true, x);
            pre.Ready? ==>
              var r := RunCommands(pre.commands, Some(ImageCheck(plan)), pre.x);
              && Trace(plan, x, r.x, delta, keeping) && ImagesRan(plan, [], x.world.images.Keys, pre.x, r)
              && pre.x.world == x.world && (x.faults == [] ==> pre.x.faults == [])
    ensures x.faults == [] && plan.images != [] && ImagesFit(plan.images, x.world) ==>
            PrepareImages(plan, true, x).Ready?
  {
    hide Trace, Lawful, Replay, RunCommands, ImageCommands, ImagesRan;
    delta := [];
    ImageCommandsFacts(plan.images, x);
    var pre := PrepareImages(plan, true, x);
    if pre.Ready? {
      TraceNothing(plan, x, pre.x, keeping);
      assert plan.images == [] + plan.images;
      delta := ImagesRun(plan, [], plan.images, x.world.images.Keys, pre.x, keeping);
      TraceJoin(plan, x, pre.x, RunCommands(pre.commands, Some(ImageCheck(plan)), pre.x).x, [], delta, keeping);
      assert [] + delta == delta;
    }
  }

  // ----------------------------------------------------- step 4: the GitHub release

  ghost predicate DistinctNames(assets: seq<File>) {
    forall i, j | 0 <= i < j < |assets| :: assets[i].name != assets[j].name
  }

  predicate StableAssets(assets: seq<File>) {
    forall f | f in assets :: f.uploaded == f.digest
  }

  lemma {:induction false} ExpectedFacts(assets: seq<File>)
    ensures forall n | n in Expected(assets) :: exists f | f in assets :: f.name == n && f.digest == Expected(assets)[n]
    ensures forall f | f in assets :: f.name in Expected(assets)
  {
    if assets != [] {
      var init, last := assets[..|assets| - 1], assets[|assets| - 1];
      ExpectedFacts(init);
      assert assets == init + [last];
    }
  }

  lemma DistinctExpected(assets: seq<File>, f: File)
    requires DistinctNames(assets) && f in assets
    ensures f.name in Expected(assets) && Expected(assets)[f.name] == f.digest
  {
    ExpectedFacts(assets);
    hide Expected;
    var g :| g in assets && g.name == f.name && g.digest == Expected(assets)[f.name];
    var i :| 0 <= i < |assets| && assets[i] == f;
    var j :| 0 <= j < |assets| && assets[j] == g;
    assert !(i < j) && !(j < i);
  }

  /** Only the release changes: assets are added, never changed, and a final one stays final. */
  ghost predicate ReleaseGrows(plan: Plan, w: World, w': World) {
    && w' == w.(release := w'.release)
    && (w.release.Some? ==>
          && w'.release.Some?
          && (w'.release.value.draft ==> w.release.value.draft)
          && forall n | n in w.release.value.assets ::
               n in w'.release.value.assets && w'.release.value.assets[n] == w.release.value.assets[n])
    && (w'.release.Some? ==>
          forall n | n in w'.release.value.assets && (w.release.None? || n !in w.release.value.assets) ::
            exists f | f in plan.assets ::
              f.name == n && (w'.release.value.assets[n] == f.uploaded || w'.release.value.assets[n] == NO_DIGEST))
  }

  lemma ReleaseGrowsJoin(plan: Plan, a: World, b: World, c: World)
    requires ReleaseGrows(plan, a, b) && ReleaseGrows(plan, b, c)
    ensures ReleaseGrows(plan, a, c)
  {
  }

  lemma PublishedAssetsFacts(plan: Plan, x: External)
    ensures var r := PublishedAssets(plan, x);
            && r.x.world == x.world && r.x.log == x.log && (r.ok ==> Attached(plan, x.world))
            && (x.faults == [] ==> r.x.faults == [] && (Attached(plan, x.world) ==> r.ok))
  {
  }

  /** After the uploads: the check, and for a draft the check, the end of the draft, the check. */
  lemma FinishRelease(plan: Plan, ending: bool, x: External, keeping: bool) returns (delta: seq<Effect>)
    requires BeforeRelease(plan, x.world) && x.world.release.Some? && (ending <==> x.world.release.value.draft)
    ensures var r := RunCommands(if ending then [[Finalise]] else [], Some(AssetCheck(plan)), x);
            && Trace(plan, x, r.x, delta, keeping) && ReleaseGrows(plan, x.world, r.x.world)
            && (r.ok ==> Done(plan, r.x.world))
            && (r.x.world.release.Some? && r.x.world.release.value.assets == x.world.release.value.assets)
            && (x.faults == [] ==> r.x.faults == [] && (Attached(plan, x.world) ==> r.ok))
  {
    hide Trace, Lawful, Replay, RunCommand, Expected;
    delta := [];
    PublishedAssetsFacts(plan, x);
    var guarded := PublishedAssets(plan, x);
    TraceNothing(plan, x, guarded.x, keeping);
    if ending {
      var commands: seq<seq<Effect>> := [[Finalise]];
      var rest: seq<seq<Effect>> := commands[1..];
      assert rest == [] && commands[0] == [Finalise];
      if guarded.ok {
        delta := PlainCommand(plan, guarded.x, Finalise, keeping);
        var y := RunCommand(guarded.x, [Finalise]);
        TraceJoin(plan, x, guarded.x, y.x, [], delta, keeping);
        assert [] + delta == delta;
        PublishedAssetsFacts(plan, y.x);
        TraceSameWorld(plan, x, y.x, PublishedAssets(plan, y.x).x, delta, keeping);
      }
    }
  }

  /** Where the uploads stand: `prefix` handled, `assets` to come. */
  ghost predicate Uploading(plan: Plan, prefix: seq<File>, assets: seq<File>, existing: set<string>, w: World) {
    && plan.assets == prefix + assets && BeforeRelease(plan, w) && w.release.Some?
    && existing <= w.release.value.assets.Keys
    && (forall f | f in prefix :: f.name in w.release.value.assets)
    && (forall n | n in w.release.value.assets && n !in existing :: exists f | f in prefix :: f.name == n)
  }

  predicate AssetsFit(plan: Plan, w: World) {
    w.release.Some? ==>
      forall f | f in plan.assets && f.name in w.release.value.assets :: w.release.value.assets[f.name] == f.digest
  }

  /** Each of `assets` was absent in `w` and has the uploaded bytes in `w'`. */
  predicate NewlyAttached(assets: seq<File>, w: World, w': World) {
    && w.release.Some? && w'.release.Some?
    && forall f | f in assets ::
         && f.name !in w.release.value.assets && f.name in w'.release.value.assets
         && w'.release.value.assets[f.name] == f.uploaded
  }

  ghost predicate AssetsRan(plan: Plan, assets: seq<File>, existing: set<string>, x: External, r: Checked) {
    && ReleaseGrows(plan, x.world, r.x.world)
    && (r.ok ==> Done(plan, r.x.world))
    && (r.ok && existing == {} ==> DistinctNames(assets) && NewlyAttached(assets, x.world, r.x.world))
    && (x.faults == [] ==> r.x.faults == [])
    && (x.faults == [] && DistinctNames(plan.assets) && StableAssets(plan.assets) && AssetsFit(plan, x.world) ==> r.ok)
  }

  lemma AllThere(plan: Plan, existing: set<string>, w: World)
    requires Uploading(plan, plan.assets, [], existing, w) && DistinctNames(plan.assets) && AssetsFit(plan, w)
    ensures Attached(plan, w)
  {
    ExpectedFacts(plan.assets);
    forall n | n in Expected(plan.assets)
      ensures n in w.release.value.assets && w.release.value.assets[n] == Expected(plan.assets)[n]
    {
      var f :| f in plan.assets && f.name == n && f.digest == Expected(plan.assets)[n];
    }
  }

  lemma AssetsDone(plan: Plan, existing: set<string>, ending: bool, x: External, keeping: bool)
    returns (delta: seq<Effect>)
    requires Uploading(plan, plan.assets, [], existing, x.world) && (ending <==> x.world.release.value.draft)
    ensures var r := RunCommands(if ending then [[Finalise]] else [], Some(AssetCheck(plan)), x);
            Trace(plan, x, r.x, delta, keeping) && AssetsRan(plan, [], existing, x, r)
  {
    hide Trace, Lawful, Replay, RunCommands, Attached, Done, ReleaseGrows;
    delta := FinishRelease(plan, ending, x, keeping);
    if DistinctNames(plan.assets) && AssetsFit(plan, x.world) { AllThere(plan, existing, x.world); }
    FinishKeepsRelease(plan, x.world,
                       RunCommands(if ending then [[Finalise]] else [], Some(AssetCheck(plan)), x).x.world);
  }

  lemma FinishKeepsRelease(plan: Plan, w: World, w': World)
    requires ReleaseGrows(plan, w, w') && w.release.Some?
    ensures w'.release.Some?
  {
  }

  /** One upload: refused if the name is taken by now; otherwise the asset is attached, or a stub of it is left. */
  lemma UploadOne(plan: Plan, prefix: seq<File>, assets: seq<File>, existing: set<string>, x: External, keeping: bool)
    returns (delta: seq<Effect>)
    requires assets != [] && assets[0].name !in existing && Uploading(plan, prefix, assets, existing, x.world)
    ensures var y, f := RunCommand(x, [UploadAsset(assets[0])]), assets[0];
            && Trace(plan, x, y.x, delta, keeping) && ReleaseGrows(plan, x.world, y.x.world)
            && y.x.world.release.Some? && y.x.world.release.value.draft == x.world.release.value.draft
            && (y.ok ==>
                  && f.name !in x.world.release.value.assets
                  && Uploading(plan, prefix + [f], assets[1..], existing, y.x.world)
                  && y.x.world.release.value.assets == x.world.release.value.assets[f.name := f.uploaded])
            && (x.faults == [] ==> y.x.faults == [] && (DistinctNames(plan.assets) ==> y.ok))
  {
    hide Trace, Lawful, Replay, RunCommand;
    var f := assets[0];
    assert plan.assets == (prefix + [f]) + assets[1..];
    assert f in plan.assets;
    NamesBefore(plan.assets, prefix, assets);
    delta := SingleCommand(plan, x, UploadAsset(f), keeping);
  }

  lemma NamesBefore(all: seq<File>, prefix: seq<File>, assets: seq<File>)
    requires all == prefix + assets && assets != []
    ensures DistinctNames(all) ==> forall g | g in prefix :: g.name != assets[0].name
  {
    forall i | 0 <= i < |prefix| ensures all[i] == prefix[i] && all[|prefix|] == assets[0] { }
  }

  lemma {:induction false} AssetsRun(plan: Plan, prefix: seq<File>, assets: seq<File>, existing: set<string>,
                                     ending: bool, x: External, keeping: bool)
    returns (delta: seq<Effect>)
    requires Uploading(plan, prefix, assets, existing, x.world) && (ending <==> x.world.release.value.draft)
    ensures var r := RunCommands(AssetUploads(assets, existing) + if ending then [[Finalise]] else [],
              Some(AssetCheck(plan)), x);
            Trace(plan, x, r.x, delta, keeping) && AssetsRan(plan, assets, existing, x, r)
    decreases assets
  {
    hide Trace, Lawful, Replay, RunCommand, Attached, Done, ReleaseGrows, Uploading, DistinctNames, NewlyAttached;
    var tail: seq<seq<Effect>> := if ending then [[Finalise]] else [];
    UploadingSplit(plan, prefix, assets, existing, x.world);
    if assets == [] {
      assert AssetUploads(assets, existing) + tail == tail;
      delta := AssetsDone(plan, existing, ending, x, keeping);
    } else {
      var f := assets[0];
      if f.name in existing {
        assert AssetUploads(assets, existing) == AssetUploads(assets[1..], existing);
        delta := AssetsRun(plan, prefix + [f], assets[1..], existing, ending, x, keeping);
      } else {
        UploadUnfold(assets, existing, tail, Some(AssetCheck(plan)), x);
        delta := UploadOne(plan, prefix, assets, existing, x, keeping);
        var y := RunCommand(x, [UploadAsset(f)]);
        if y.ok {
          var rest := AssetsRun(plan, prefix + [f], assets[1..], existing, ending, y.x, keeping);
          var r := RunCommands(AssetUploads(assets[1..], existing) + tail, Some(AssetCheck(plan)), y.x);
          TraceJoin(plan, x, y.x, r.x, delta, rest, keeping);
          ReleaseGrowsJoin(plan, x.world, y.x.world, r.x.world);
          delta := delta + rest;
          UploadedFirst(plan, assets, x.world, y.x.world, r.x.world);
          hide RunCommands, AssetUploads;
        }
      }
    }
  }

  lemma UploadingSplit(plan: Plan, prefix: seq<File>, assets: seq<File>, existing: set<string>, w: World)
    requires Uploading(plan, prefix, assets, existing, w)
    ensures assets == [] ==> Uploading(plan, plan.assets, [], existing, w)
    ensures assets != [] && assets[0].name in existing ==>
            Uploading(plan, prefix + [assets[0]], assets[1..], existing, w)
    ensures w.release.Some? && (assets != [] ==> assets[0] in plan.assets)
  {
    if assets == [] {
      assert prefix == plan.assets;
    } else {
      assert plan.assets == (prefix + [assets[0]]) + assets[1..];
    }
  }

  lemma UploadUnfold(assets: seq<File>, existing: set<string>, tail: seq<seq<Effect>>,
                     published: Option<External -> Checked>, x: External)
    requires assets != [] && assets[0].name !in existing
    ensures RunCommands(AssetUploads(assets, existing) + tail, published, x) ==
            var y := RunCommand(x, [UploadAsset(assets[0])]);
            if !y.ok then y else RunCommands(AssetUploads(assets[1..], existing) + tail, published, y.x)
  {
    hide RunCommands;
    var upload: seq<seq<Effect>> := [[UploadAsset(assets[0])]];
    var rest := AssetUploads(assets[1..], existing) + tail;
    var all := AssetUploads(assets, existing) + tail;
    assert all == upload + rest && all[1..] == rest;
    RunFirst(all, UploadAsset(assets[0]), published, x);
  }

  lemma UploadedFirst(plan: Plan, assets: seq<File>, w: World, w1: World, w2: World)
    requires assets != [] && w.release.Some? && w1.release.Some?
    requires w1.release.value.assets == w.release.value.assets[assets[0].name := assets[0].uploaded]
    requires assets[0].name !in w.release.value.assets && ReleaseGrows(plan, w1, w2)
    ensures DistinctNames(assets[1..]) && NewlyAttached(assets[1..], w1, w2) ==>
            DistinctNames(assets) && NewlyAttached(assets, w, w2)
    ensures assets[0] in plan.assets && StableAssets(plan.assets) && DistinctNames(plan.assets) ==>
              (AssetsFit(plan, w) ==> AssetsFit(plan, w1))
  {
    var f := assets[0];
    assert assets == [f] + assets[1..];
    if DistinctNames(assets[1..]) && NewlyAttached(assets[1..], w1, w2) {
      forall i, j | 0 <= i < j < |assets| ensures assets[i].name != assets[j].name {
        assert assets[j] == assets[1..][j - 1];
        if i > 0 { assert assets[i] == assets[1..][i - 1]; }
      }
    }
    if f in plan.assets && StableAssets(plan.assets) && DistinctNames(plan.assets) && AssetsFit(plan, w) {
      forall g | g in plan.assets && g.name in w1.release.value.assets
        ensures w1.release.value.assets[g.name] == g.digest
      {
        if g.name == f.name { DistinctExpected(plan.assets, f); DistinctExpected(plan.assets, g); }
      }
    }
  }

  /** What step 4 does to the world, once its commands run from `x` to `r`. */
  ghost predicate ReleaseRan(plan: Plan, x: External, r: Checked) {
    && ReleaseGrows(plan, x.world, r.x.world)
    && (r.ok ==> Done(plan, r.x.world))
    && (r.ok && x.world.release.None? ==> DistinctNames(plan.assets) && AssetBytes(plan, r.x.world))
    && (x.faults == [] ==> r.x.faults == [])
    && (x.faults == [] && DistinctNames(plan.assets) && StableAssets(plan.assets) ==> r.ok)
  }

  predicate AssetBytes(plan: Plan, w: World) {
    && w.release.Some?
    && forall f | f in plan.assets ::
         f.name in w.release.value.assets && w.release.value.assets[f.name] == f.uploaded
  }

  lemma FitsWhenDistinct(plan: Plan, w: World)
    requires DistinctNames(plan.assets) && (w.release.Some? ==> AssetsAgree(w.release.value, Expected(plan.assets)))
    ensures AssetsFit(plan, w)
  {
    if w.release.Some? {
      forall f | f in plan.assets && f.name in w.release.value.assets
        ensures w.release.value.assets[f.name] == f.digest
      {
        DistinctExpected(plan.assets, f);
      }
    }
  }

  lemma AttachToRelease(plan: Plan, x: External, keeping: bool) returns (delta: seq<Effect>)
    requires BeforeRelease(plan, x.world) && x.world.release.Some?
    requires AssetsAgree(x.world.release.value, Expected(plan.assets))
    ensures var r := RunCommands(ReleaseCommands(plan, x.world.release), Some(AssetCheck(plan)), x);
            Trace(plan, x, r.x, delta, keeping) && ReleaseRan(plan, x, r)
  {
    hide Trace, Lawful, Replay, RunCommands, Done, ReleaseGrows, AssetUploads, AssetsAgree, Expected, AssetsFit;
    var existing, ending := x.world.release.value.assets.Keys, x.world.release.value.draft;
    assert plan.assets == [] + plan.assets;
    delta := AssetsRun(plan, [], plan.assets, existing, ending, x, keeping);
    var tail: seq<seq<Effect>> := if ending then [[Finalise]] else [];
    assert ReleaseCommands(plan, x.world.release) == AssetUploads(plan.assets, existing) + tail;
    if DistinctNames(plan.assets) { FitsWhenDistinct(plan, x.world); }
  }

  lemma CreateAndAttach(plan: Plan, x: External, keeping: bool) returns (delta: seq<Effect>)
    requires BeforeRelease(plan, x.world) && x.world.release.None?
    ensures var r := RunCommands(ReleaseCommands(plan, None), Some(AssetCheck(plan)), x);
            Trace(plan, x, r.x, delta, keeping) && ReleaseRan(plan, x, r)
  {
    hide Trace, Lawful, Replay, RunCommand, Done, AssetUploads, Expected;
    var creating: seq<seq<Effect>> := [[CreateRelease]];
    var rest := AssetUploads(plan.assets, {}) + [[Finalise]];
    assert ReleaseCommands(plan, None) == creating + rest;
    assert (creating + rest)[0][0] != Finalise && (creating + rest)[1..] == rest;
    delta := PlainCommand(plan, x, CreateRelease, keeping);
    var y := RunCommand(x, [CreateRelease]);
    if y.ok {
      assert plan.assets == [] + plan.assets;
      var more := AssetsRun(plan, [], plan.assets, {}, true, y.x, keeping);
      var r := RunCommands(rest, Some(AssetCheck(plan)), y.x);
      TraceJoin(plan, x, y.x, r.x, delta, more, keeping);
      delta := delta + more;
      hide RunCommands;
    }
  }

  lemma ReleaseStage(plan: Plan, x: External, keeping: bool) returns (delta: seq<Effect>)
    requires BeforeRelease(plan, x.world)
    ensures var pre := PrepareRelease(plan, true, x);
            pre.Ready? ==>
              var r := RunCommands(pre.commands, Some(AssetCheck(plan)), pre.x);
              && Trace(plan, x, r.x, delta, keeping) && ReleaseRan(plan, pre.x, r)
              && pre.x.world == x.world && (x.faults == [] ==> pre.x.faults == [])
    ensures x.faults == [] && AssetsFit(plan, x.world) ==> PrepareRelease(plan, true, x).Ready?
  {
    hide Trace, Lawful, Replay, RunCommands, ReleaseRan, ReleaseCommands;
    delta := [];
    var pre := PrepareRelease(plan, true, x);
    ExpectedFacts(plan.assets);
    if pre.Ready? {
      TraceNothing(plan, x, pre.x, keeping);
      if x.world.release.Some? {
        delta := AttachToRelease(plan, pre.x, keeping);
      } else {
        delta := CreateAndAttach(plan, pre.x, keeping);
      }
      TraceJoin(plan, x, pre.x, RunCommands(pre.commands, Some(AssetCheck(plan)), pre.x).x, [], delta, keeping);
      assert [] + delta == delta;
    }
  }
}
