/** The rules a promotion's effects obey: the fixed publish order, the draft rule, and that
    nothing public is replaced. A log is lawful when each effect obeys them as it happens. */
module PublishOrder {
  import opened Options
  import opened Staging
  import opened Publication
  import opened Promotion

  // ------------------------------------------------------------- published facts

  predicate Tagged(plan: Plan, w: World) { w.remoteTag == Some(plan.commit) }

  predicate OnPypi(dists: seq<Dist>, w: World) {
    forall d | d in dists :: d.key in w.pypi && w.pypi[d.key] == d.digest
  }

  predicate ImagesUp(images: seq<ImageRef>, w: World) {
    forall i | i in images :: i.name in w.images && w.images[i.name] == i.digest && (i.name, i.digest) in w.signed
  }

  predicate Attached(plan: Plan, w: World) {
    w.release.Some? && AssetsAttached(w.release.value, Expected(plan.assets))
  }

  /** Everything the plan publishes is public, and the release is final. */
  predicate Done(plan: Plan, w: World) {
    Tagged(plan, w) && OnPypi(plan.dists, w) && ImagesUp(plan.images, w) && Attached(plan, w) && !w.release.value.draft
  }

  predicate BeforeRelease(plan: Plan, w: World) {
    Tagged(plan, w) && OnPypi(plan.dists, w) && ImagesUp(plan.images, w)
  }

  // ---------------------------------------------------------------- lawful effects

  /** The fixed order: nothing goes to PyPI before the tag is public, no image before all
      distributions are, nothing to the release before all images are, and the draft ends
      only when every asset is attached with its expected digest. */
  predicate Ordered(plan: Plan, w: World, e: Effect) {
    match e
    case TagLocally(commit) => commit == plan.commit
    case PushTag => w.localTag == Some(plan.commit)
    case UploadDist(d) => d in plan.dists && Tagged(plan, w)
    case CopyImage(i) => i in plan.images && Tagged(plan, w) && OnPypi(plan.dists, w)
    case SignImage(i) =>
      && i in plan.images && Tagged(plan, w) && OnPypi(plan.dists, w)
      && i.name in w.images && w.images[i.name] == i.digest
    case CreateRelease => BeforeRelease(plan, w)
    case UploadAsset(f) => f in plan.assets && BeforeRelease(plan, w)
    case LeaveStub(f) => f in plan.assets && BeforeRelease(plan, w)
    case Finalise => BeforeRelease(plan, w) && Attached(plan, w)
  }

  /** The effect takes nothing public away: what it writes is absent, or an image tag
      already at this digest. */
  predicate Fresh(w: World, e: Effect) {
    match e
    case TagLocally(_) => w.localTag.None?
    case PushTag => w.remoteTag.None?
    case UploadDist(d) => d.key !in w.pypi
    case CopyImage(i) => i.name in w.images ==> w.images[i.name] == i.digest
    case SignImage(_) => true
    case CreateRelease => w.release.None?
    case UploadAsset(f) => w.release.Some? && f.name !in w.release.value.assets
    case LeaveStub(f) => w.release.Some? && f.name !in w.release.value.assets
    case Finalise => w.release.Some? && w.release.value.draft
  }

  /** Every effect of the log is ordered, and (where asked for) fresh, in the world it meets. */
  predicate Lawful(plan: Plan, w: World, log: seq<Effect>, keeping: bool)
    decreases log
  {
    log == [] ||
    (&& Accepts(w, log[0])
     && Ordered(plan, w, log[0])
     && (keeping ==> Fresh(w, log[0]))
     && Lawful(plan, Apply(w, log[0]), log[1..], keeping))
  }

  /** From `x` to `x'` exactly the effects `delta` happened, lawfully. */
  ghost predicate Trace(plan: Plan, x: External, x': External, delta: seq<Effect>, keeping: bool) {
    x'.log == x.log + delta && Lawful(plan, x.world, delta, keeping) && Replay(x.world, delta) == Some(x'.world)
  }

  lemma {:induction false} LawfulJoin(plan: Plan, w: World, a: seq<Effect>, b: seq<Effect>, keeping: bool)
    requires Lawful(plan, w, a, keeping) && Replay(w, a).Some? && Lawful(plan, Replay(w, a).value, b, keeping)
    ensures Lawful(plan, w, a + b, keeping) && Replay(w, a + b) == Replay(Replay(w, a).value, b)
    decreases a
  {
    if a == [] {
      assert a + b == b;
    } else {
      LawfulJoin(plan, Apply(w, a[0]), a[1..], b, keeping);
      assert (a + b)[1..] == a[1..] + b;
    }
  }

  lemma TraceJoin(plan: Plan, x: External, y: External, z: External, a: seq<Effect>, b: seq<Effect>, keeping: bool)
    requires Trace(plan, x, y, a, keeping) && Trace(plan, y, z, b, keeping)
    ensures Trace(plan, x, z, a + b, keeping)
  {
    LawfulJoin(plan, x.world, a, b, keeping);
  }

  lemma TraceNothing(plan: Plan, x: External, x': External, keeping: bool)
    requires x'.world == x.world && x'.log == x.log
    ensures Trace(plan, x, x', [], keeping)
  {
  }

  lemma TraceOne(plan: Plan, x: External, x': External, e: Effect, keeping: bool)
    requires Accepts(x.world, e) && Ordered(plan, x.world, e) && (keeping ==> Fresh(x.world, e))
    requires x'.world == Apply(x.world, e) && x'.log == x.log + [e]
    ensures Trace(plan, x, x', [e], keeping)
  {
    assert [e][1..] == [];
    assert Lawful(plan, Apply(x.world, e), [], keeping);
  }

  /** What a command with the one effect `e` can leave behind. */
  predicate Left(w: World, e: Effect, w': World) {
    || w' == w
    || (Accepts(w, e) && w' == Apply(w, e))
    || (e.UploadAsset? && Accepts(w, e) && w' == Apply(w, LeaveStub(e.asset)))
  }

  /** A command with one effect has it, or a stub of it, or nothing; when it works, it has it. */
  lemma SingleCommand(plan: Plan, x: External, e: Effect, keeping: bool) returns (delta: seq<Effect>)
    requires Accepts(x.world, e) ==> Ordered(plan, x.world, e) && (keeping ==> Fresh(x.world, e))
    ensures var r := RunCommand(x, [e]);
            && Trace(plan, x, r.x, delta, keeping)
            && Left(x.world, e, r.x.world)
            && (r.ok ==> Accepts(x.world, e) && r.x.world == Apply(x.world, e))
            && (x.faults == [] ==> r.x.faults == [] && (Accepts(x.world, e) ==> r.ok))
  {
    var r := RunCommand(x, [e]);
    var done := SingleOutcome(x, e);
    if r.x.log == x.log {
      delta := [];
      TraceNothing(plan, x, r.x, keeping);
    } else {
      delta := [done];
      TraceOne(plan, x, r.x, done, keeping);
    }
  }

  /** The same for everything but asset uploads, which alone leave stubs. */
  lemma PlainCommand(plan: Plan, x: External, e: Effect, keeping: bool) returns (delta: seq<Effect>)
    requires !e.UploadAsset?
    requires Accepts(x.world, e) ==> Ordered(plan, x.world, e) && (keeping ==> Fresh(x.world, e))
    ensures var r := RunCommand(x, [e]);
            && Trace(plan, x, r.x, delta, keeping)
            && (r.x.world == x.world || (Accepts(x.world, e) && r.x.world == Apply(x.world, e)))
            && (r.ok ==> Accepts(x.world, e) && r.x.world == Apply(x.world, e))
            && (x.faults == [] ==> r.x.faults == [] && (Accepts(x.world, e) ==> r.ok))
  {
    hide Trace, RunCommand;
    delta := SingleCommand(plan, x, e, keeping);
  }

  /** The effect a command with one effect has, if it has any. */
  lemma SingleOutcome(x: External, e: Effect) returns (done: Effect)
    ensures var r := RunCommand(x, [e]);
            && (done == e || (e.UploadAsset? && done == LeaveStub(e.asset)))
            && (|| (r.x.world == x.world && r.x.log == x.log && !r.ok)
                || (Accepts(x.world, done) && r.x.world == Apply(x.world, done) && r.x.log == x.log + [done]))
            && (r.ok ==> done == e && Accepts(x.world, e) && r.x.log != x.log)
            && (x.faults == [] ==> r.x.faults == [] && (Accepts(x.world, e) ==> r.ok))
  {
    done := e;
    match Next(x)
    case Works => SinglePerform(Consume(x), e, 1);
    case Breaks(applied) => SinglePerform(Consume(x), e, applied);
    case CutsOff(applied) =>
      if applied > 0 { SinglePerform(Consume(x), e, applied + 1); }
      else if e.UploadAsset? {
        done := LeaveStub(e.asset);
        assert CutAfter([e], 0) == [done] by { assert [e][..0] + [done] == [done]; }
        SinglePerform(Consume(x), done, 1);
      } else {
        assert CutAfter([e], 0) == [] by { assert [e][..0] + [] == []; }
      }
  }

  lemma SinglePerform(x: External, e: Effect, limit: nat)
    ensures limit > 0 && Accepts(x.world, e) ==>
              Perform(x, [e], limit) == Checked(true, x.(world := Apply(x.world, e), log := x.log + [e]))
    ensures limit == 0 || !Accepts(x.world, e) ==> Perform(x, [e], limit) == Checked(false, x)
  {
    assert [e][1..] == [];
  }
}
