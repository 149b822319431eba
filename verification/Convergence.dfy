/** Interrupted promotions converge: after any number of runs that failed anywhere, a run
    without failures completes, and publishes exactly what an uninterrupted run would have,
    unless one of them was cut off inside an asset upload. */
module Convergence {
  import opened Options
  import opened Staging
  import opened Publication
  import opened Promotion
  import opened PublishOrder
  import opened PromotionSteps
  import opened PromotionRuns
  import opened PromotionTheorems

  /** One run of the promotion job: on a fresh checkout the local tag is gone. */
  datatype Session = Session(freshCheckout: bool, faults: seq<Outcome>)

  function Checkout(w: World, freshCheckout: bool): World {
    if freshCheckout then w.(localTag := None) else w
  }

  function AfterSession(plan: Plan, w: World, s: Session): World {
    RunFrom(plan, External(Checkout(w, s.freshCheckout), s.faults, [])).world
  }

  function AfterSessions(plan: Plan, w: World, sessions: seq<Session>): World
    decreases sessions
  {
    if sessions == [] then w
    else AfterSessions(plan, AfterSession(plan, w, sessions[0]), sessions[1..])
  }

  /** What the outside can see. */
  function Public(w: World): World { w.(localTag := None) }

  // ----------------------------------------------------- growth towards the plan

  function Assets(w: World): map<string, Digest> {
    if w.release.Some? then w.release.value.assets else map[]
  }

  ghost predicate TagsGrow(plan: Plan, w: World, w': World) {
    && (LocalFits(plan, w) ==> LocalFits(plan, w'))
    && (w'.remoteTag == w.remoteTag || (w.remoteTag.None? && Tagged(plan, w')))
  }

  ghost predicate PypiGrows(plan: Plan, w: World, w': World) {
    && (forall k | k in w.pypi :: k in w'.pypi && w'.pypi[k] == w.pypi[k])
    && (forall k | k in w'.pypi && k !in w.pypi :: exists d | d in plan.dists :: d.key == k && d.digest == w'.pypi[k])
  }

  ghost predicate RegistryGrows(plan: Plan, w: World, w': World) {
    && (forall n | n in w.images :: n in w'.images && w'.images[n] == w.images[n])
    && (forall n | n in w'.images && n !in w.images ::
          exists i | i in plan.images :: i.name == n && i.digest == w'.images[n])
    && w.signed <= w'.signed
    && (forall s | s in w'.signed && s !in w.signed :: exists i | i in plan.images :: s == (i.name, i.digest))
  }

  ghost predicate AssetsGrow(plan: Plan, w: World, w': World) {
    && (w.release.Some? ==> w'.release.Some?)
    && (forall n | n in Assets(w) :: n in Assets(w') && Assets(w')[n] == Assets(w)[n])
    && (forall n | n in Assets(w') && n !in Assets(w) ::
          exists f | f in plan.assets :: f.name == n && (f.digest == Assets(w')[n] || Assets(w')[n] == NO_DIGEST))
  }

  /** From `w` to `w'` nothing was lost or changed, and all that was added is the plan's, or a
      stub of one of its assets. */
  ghost predicate Grown(plan: Plan, w: World, w': World) {
    TagsGrow(plan, w, w') && PypiGrows(plan, w, w') && RegistryGrows(plan, w, w') && AssetsGrow(plan, w, w')
  }

  lemma EffectGrows(plan: Plan, w: World, e: Effect)
    requires Accepts(w, e) && Ordered(plan, w, e) && Fresh(w, e)
    requires StableDists(plan.dists) && StableAssets(plan.assets)
    ensures Grown(plan, w, Apply(w, e))
  {
  }

  lemma GrownJoin(plan: Plan, a: World, b: World, c: World)
    requires Grown(plan, a, b) && Grown(plan, b, c)
    ensures Grown(plan, a, c)
  {
    assert TagsGrow(plan, a, c) && PypiGrows(plan, a, c);
    assert RegistryGrows(plan, a, c);
    assert AssetsGrow(plan, a, c);
  }

  lemma {:induction false} LawfulGrows(plan: Plan, w: World, log: seq<Effect>)
    requires Lawful(plan, w, log, true) && Replay(w, log).Some?
    requires StableDists(plan.dists) && StableAssets(plan.assets)
    ensures Grown(plan, w, Replay(w, log).value)
    decreases log
  {
    hide Grown, StableDists, StableAssets;
    if log == [] {
      GrownSelf(plan, w);
    } else {
      EffectGrows(plan, w, log[0]);
      LawfulGrows(plan, Apply(w, log[0]), log[1..]);
      GrownJoin(plan, w, Apply(w, log[0]), Replay(w, log).value);
    }
  }

  lemma GrownSelf(plan: Plan, w: World)
    ensures Grown(plan, w, w)
  {
  }

  lemma CheckoutGrows(plan: Plan, w: World, freshCheckout: bool)
    ensures Grown(plan, w, Checkout(w, freshCheckout))
  {
  }

  lemma SessionGrows(plan: Plan, w: World, s: Session)
    requires WellFormed(plan) && Publishable(plan)
    ensures Grown(plan, w, AfterSession(plan, w, s))
  {
    hide Lawful, Replay, RunPlan, Grown, DistinctNames, ImagesAgree;
    var x := External(Checkout(w, s.freshCheckout), s.faults, []);
    var delta := PromotionRun(plan, x, true);
    LawfulGrows(plan, x.world, delta);
    CheckoutGrows(plan, w, s.freshCheckout);
    GrownJoin(plan, w, x.world, AfterSession(plan, w, s));
  }

  lemma {:induction false} SessionsGrow(plan: Plan, w: World, sessions: seq<Session>)
    requires WellFormed(plan) && Publishable(plan)
    ensures Grown(plan, w, AfterSessions(plan, w, sessions))
    decreases sessions
  {
    hide Grown, Publishable, WellFormed, AfterSession;
    if sessions == [] {
      GrownSelf(plan, w);
    } else {
      SessionGrows(plan, w, sessions[0]);
      var w1 := AfterSession(plan, w, sessions[0]);
      SessionsGrow(plan, w1, sessions[1..]);
      GrownJoin(plan, w, w1, AfterSessions(plan, w, sessions));
    }
  }

  // --------------------------------------------------- conforming stays conforming

  lemma GrownConforms(plan: Plan, w: World, w': World)
    requires Grown(plan, w, w') && Conforms(plan, w) && WellFormed(plan) && Publishable(plan) && AssetsFit(plan, w')
    ensures Conforms(plan, w')
  {
    forall d | d in plan.dists && d.key in w'.pypi ensures w'.pypi[d.key] == d.digest {
      if d.key !in w.pypi {
        var e :| e in plan.dists && e.key == d.key && e.digest == w'.pypi[d.key];
        SameKeySameDist(plan, d, e);
      }
    }
  }

  lemma SameKeySameDist(plan: Plan, d: Dist, e: Dist)
    requires WellFormed(plan) && d in plan.dists && e in plan.dists && d.key == e.key
    ensures d == e
  {
    var i :| 0 <= i < |plan.dists| && plan.dists[i] == d;
    var j :| 0 <= j < |plan.dists| && plan.dists[j] == e;
    assert !(i < j) && !(j < i);
  }

  // ------------------------------------------------------- one final public state

  /** Two finished worlds grown from the same start look the same from outside. */
  lemma FinishedWorldsAgree(plan: Plan, w: World, a: World, b: World)
    requires WellFormed(plan) && Publishable(plan)
    requires Grown(plan, w, a) && Grown(plan, w, b) && Done(plan, a) && Done(plan, b)
    ensures Public(a) == Public(b)
  {
    hide DistinctNames, ImagesAgree, StableDists, StableAssets, Expected, WellFormed, TagsGrow;
    PypiIncluded(plan, w, a, b);
    PypiIncluded(plan, w, b, a);
    assert a.pypi == b.pypi;
    RegistryIncluded(plan, w, a, b);
    RegistryIncluded(plan, w, b, a);
    assert a.images == b.images && a.signed == b.signed;
    AssetsIncluded(plan, w, a, b);
    AssetsIncluded(plan, w, b, a);
    assert Assets(a) == Assets(b);
  }

  lemma PypiIncluded(plan: Plan, w: World, a: World, b: World)
    requires PypiGrows(plan, w, a) && PypiGrows(plan, w, b) && OnPypi(plan.dists, b)
    ensures forall k | k in a.pypi :: k in b.pypi && b.pypi[k] == a.pypi[k]
  {
  }

  lemma RegistryIncluded(plan: Plan, w: World, a: World, b: World)
    requires RegistryGrows(plan, w, a) && RegistryGrows(plan, w, b) && ImagesUp(plan.images, b)
    ensures forall n | n in a.images :: n in b.images && b.images[n] == a.images[n]
    ensures a.signed <= b.signed
  {
  }

  lemma AssetsIncluded(plan: Plan, w: World, a: World, b: World)
    requires AssetsGrow(plan, w, a) && AssetsGrow(plan, w, b) && DistinctNames(plan.assets)
    requires Attached(plan, a) && Attached(plan, b)
    ensures forall n | n in Assets(a) :: n in Assets(b) && Assets(b)[n] == Assets(a)[n]
  {
    hide Expected;
    forall n | n in Assets(a) ensures n in Assets(b) && Assets(b)[n] == Assets(a)[n] {
      if n !in Assets(w) {
        var f :| f in plan.assets && f.name == n;
        DistinctExpected(plan.assets, f);
      }
    }
  }

  lemma FaultFreeFinishes(plan: Plan, w: World, freshCheckout: bool)
    requires WellFormed(plan) && Publishable(plan) && Conforms(plan, Checkout(w, freshCheckout))
    ensures Done(plan, AfterSession(plan, w, Session(freshCheckout, [])))
  {
    hide Conforms, Publishable, Done, RunPlan, AllCompleted;
    CompletesIffPublishable(plan);
    assert Completes(plan, Checkout(w, freshCheckout));
    CompletedRunsAreDone(plan, External(Checkout(w, freshCheckout), [], []));
  }

  // ------------------------------------------------ from which worlds one can recover

  /** Nothing the outside can see contradicts the plan. */
  predicate PublicFits(plan: Plan, w: World) {
    RemoteFits(plan, w) && PypiFits(plan.dists, w) && ImagesFit(plan.images, w) && AssetsFit(plan, w)
  }

  predicate Finishes(plan: Plan, w: World, sessions: seq<Session>) { Done(plan, AfterSessions(plan, w, sessions)) }

  /** From any world whatever, however it came about, some sequence of runs finishes exactly when
      nothing public contradicts the plan. A release that holds one of the plan's asset names
      under another digest, or without one, never gets its other assets by rerunning. */
  lemma RecoverableIff(plan: Plan, w: World)
    requires WellFormed(plan) && Publishable(plan)
    ensures (exists sessions :: Finishes(plan, w, sessions)) <==> PublicFits(plan, w)
  {
    hide Grown, Publishable, WellFormed, Done, AfterSession, PublicFits;
    forall sessions | Finishes(plan, w, sessions) ensures PublicFits(plan, w) {
      SessionsGrow(plan, w, sessions);
      FinishedFits(plan, w, AfterSessions(plan, w, sessions));
    }
    if PublicFits(plan, w) {
      var once := [Session(true, [])];
      assert once[1..] == [];
      assert Conforms(plan, Checkout(w, true)) by { FreshConforms(plan, w); }
      FaultFreeFinishes(plan, w, true);
      var w1 := AfterSession(plan, w, Session(true, []));
      assert AfterSessions(plan, w1, []) == w1;
      assert AfterSessions(plan, w, once) == w1;
      assert Finishes(plan, w, once);
    }
  }

  lemma FreshConforms(plan: Plan, w: World)
    requires PublicFits(plan, w)
    ensures Conforms(plan, Checkout(w, true))
  {
  }

  lemma FinishedFits(plan: Plan, w: World, w': World)
    requires Publishable(plan) && Grown(plan, w, w') && Done(plan, w')
    ensures PublicFits(plan, w)
  {
    hide Expected, ImagesAgree, StableDists, StableAssets, DistinctNames;
    if w.release.Some? {
      forall f | f in plan.assets && f.name in w.release.value.assets
        ensures w.release.value.assets[f.name] == f.digest
      {
        DistinctExpected(plan.assets, f);
        assert f.name in Assets(w);
      }
    }
  }

  // --------------------------------------------------- which interrupted runs converge

  /** Digests are never empty, so a stub is told from an asset. */
  predicate AssetsHaveDigests(plan: Plan) { forall f | f in plan.assets :: f.digest != NO_DIGEST }

  predicate LeavesNoStub(log: seq<Effect>) { forall e | e in log :: !e.LeaveStub? }

  /** The effects one session had. */
  function SessionEffects(plan: Plan, w: World, s: Session): seq<Effect> {
    EffectsOf(plan, External(Checkout(w, s.freshCheckout), s.faults, []))
  }

  /** No session was cut off inside an asset upload. */
  predicate AllWhole(plan: Plan, w: World, sessions: seq<Session>)
    decreases sessions
  {
    sessions == [] ||
    (&& LeavesNoStub(SessionEffects(plan, w, sessions[0]))
     && AllWhole(plan, AfterSession(plan, w, sessions[0]), sessions[1..]))
  }

  lemma EffectFits(plan: Plan, w: World, e: Effect)
    requires Accepts(w, e) && Ordered(plan, w, e) && !e.LeaveStub?
    requires AssetsFit(plan, w) && DistinctNames(plan.assets) && StableAssets(plan.assets)
    ensures AssetsFit(plan, Apply(w, e))
  {
    hide BeforeRelease, Attached;
    if e.UploadAsset? {
      var w' := Apply(w, e);
      forall g | g in plan.assets && g.name in w'.release.value.assets
        ensures w'.release.value.assets[g.name] == g.digest
      {
        if g.name == e.asset.name {
          DistinctExpected(plan.assets, g);
          DistinctExpected(plan.assets, e.asset);
        }
      }
    }
  }

  lemma {:induction false} WholeLogFits(plan: Plan, w: World, log: seq<Effect>)
    requires Lawful(plan, w, log, true) && Replay(w, log).Some? && LeavesNoStub(log)
    requires AssetsFit(plan, w) && DistinctNames(plan.assets) && StableAssets(plan.assets)
    ensures AssetsFit(plan, Replay(w, log).value)
    decreases log
  {
    hide AssetsFit, DistinctNames, StableAssets;
    if log != [] {
      assert log[0] in log && forall e | e in log[1..] :: e in log;
      EffectFits(plan, w, log[0]);
      WholeLogFits(plan, Apply(w, log[0]), log[1..]);
    }
  }

  /** A stub stays, under the name of one of the plan's assets. */
  lemma {:induction false} StubStays(plan: Plan, w: World, log: seq<Effect>, e: Effect)
    requires Lawful(plan, w, log, true) && Replay(w, log).Some? && e in log && e.LeaveStub?
    requires StableDists(plan.dists) && StableAssets(plan.assets) && AssetsHaveDigests(plan)
    ensures !AssetsFit(plan, Replay(w, log).value)
    decreases log
  {
    hide StableDists, StableAssets, Fresh, BeforeRelease;
    var w1 := Apply(w, log[0]);
    if log[0] == e {
      LawfulGrows(plan, w1, log[1..]);
      assert e.asset in plan.assets && !AssetsFit(plan, w1);
      MisfitStays(plan, w1, Replay(w1, log[1..]).value);
    } else {
      assert log == [log[0]] + log[1..];
      StubStays(plan, w1, log[1..], e);
    }
  }

  lemma MisfitStays(plan: Plan, w: World, w': World)
    requires Grown(plan, w, w') && !AssetsFit(plan, w)
    ensures !AssetsFit(plan, w')
  {
    hide TagsGrow, PypiGrows, RegistryGrows;
    var f :| f in plan.assets && f.name in w.release.value.assets && w.release.value.assets[f.name] != f.digest;
    assert f.name in Assets(w);
  }

  /** A session that starts with fitting assets ends with fitting assets exactly when it left no stub. */
  lemma SessionFitsIff(plan: Plan, w: World, s: Session)
    requires WellFormed(plan) && Publishable(plan) && AssetsHaveDigests(plan) && AssetsFit(plan, w)
    ensures AssetsFit(plan, AfterSession(plan, w, s)) <==> LeavesNoStub(SessionEffects(plan, w, s))
  {
    hide Lawful, Replay, RunPlan, DistinctNames, ImagesAgree, StableDists, StableAssets;
    var x := External(Checkout(w, s.freshCheckout), s.faults, []);
    var delta := PromotionRun(plan, x, true);
    assert EffectsOf(plan, x) == delta;
    if LeavesNoStub(delta) {
      WholeLogFits(plan, x.world, delta);
    } else {
      var e :| e in delta && e.LeaveStub?;
      StubStays(plan, x.world, delta, e);
    }
  }

  lemma {:induction false} SessionsFitIff(plan: Plan, w: World, sessions: seq<Session>)
    requires WellFormed(plan) && Publishable(plan) && AssetsHaveDigests(plan) && AssetsFit(plan, w)
    ensures AssetsFit(plan, AfterSessions(plan, w, sessions)) <==> AllWhole(plan, w, sessions)
    decreases sessions
  {
    hide AfterSession, SessionEffects, AssetsFit, Publishable, WellFormed, LeavesNoStub, Grown;
    if sessions != [] {
      var w1 := AfterSession(plan, w, sessions[0]);
      SessionFitsIff(plan, w, sessions[0]);
      if AssetsFit(plan, w1) {
        SessionsFitIff(plan, w1, sessions[1..]);
      } else {
        SessionsGrow(plan, w1, sessions[1..]);
        MisfitStays(plan, w1, AfterSessions(plan, w1, sessions[1..]));
      }
    }
  }

  /** After `w1` a failure-free run completes and leaves the same tag, PyPI files, images,
      signatures and release as one uninterrupted run from `w`. */
  predicate Converges(plan: Plan, w: World, w1: World, freshCheckout: bool) {
    && Completes(plan, Checkout(w1, freshCheckout))
    && Public(AfterSession(plan, w1, Session(freshCheckout, []))) == Public(AfterSession(plan, w, Session(false, [])))
  }

  /** Runs interrupted anywhere converge exactly when none of them was cut off inside an asset
      upload; and after one that was, no sequence of runs ever finishes. */
  lemma InterruptedRunsConvergeIff(plan: Plan, w: World, sessions: seq<Session>, freshCheckout: bool)
    requires WellFormed(plan) && Publishable(plan) && AssetsHaveDigests(plan) && Conforms(plan, w)
    ensures Converges(plan, w, AfterSessions(plan, w, sessions), freshCheckout) <==> AllWhole(plan, w, sessions)
    ensures !AllWhole(plan, w, sessions) ==>
              forall more :: !Finishes(plan, AfterSessions(plan, w, sessions), more)
  {
    hide Grown, Publishable, WellFormed, Done, RunPlan, Completes, AfterSessions, AllWhole, Finishes, AfterSession;
    var w1 := AfterSessions(plan, w, sessions);
    SessionsFitIff(plan, w, sessions);
    RecoverableIff(plan, w1);
    if AllWhole(plan, w, sessions) {
      WholeRunsConverge(plan, w, sessions, freshCheckout);
    } else {
      StrandedNeverCompletes(plan, w1, freshCheckout);
    }
  }

  lemma WholeRunsConverge(plan: Plan, w: World, sessions: seq<Session>, freshCheckout: bool)
    requires WellFormed(plan) && Publishable(plan) && Conforms(plan, w)
    requires AssetsFit(plan, AfterSessions(plan, w, sessions))
    ensures Converges(plan, w, AfterSessions(plan, w, sessions), freshCheckout)
  {
    hide Grown, Conforms, Publishable, WellFormed, Done, RunPlan, Completes, AfterSessions;
    var w1 := AfterSessions(plan, w, sessions);
    SessionsGrow(plan, w, sessions);
    CheckoutGrows(plan, w1, freshCheckout);
    GrownJoin(plan, w, w1, Checkout(w1, freshCheckout));
    GrownConforms(plan, w, Checkout(w1, freshCheckout));
    CompletesIffPublishable(plan);
    FaultFreeFinishes(plan, w1, freshCheckout);
    FaultFreeFinishes(plan, w, false);
    SessionGrows(plan, w1, Session(freshCheckout, []));
    GrownJoin(plan, w, w1, AfterSession(plan, w1, Session(freshCheckout, [])));
    SessionGrows(plan, w, Session(false, []));
    FinishedWorldsAgree(plan, w, AfterSession(plan, w1, Session(freshCheckout, [])),
                        AfterSession(plan, w, Session(false, [])));
  }

  lemma StrandedNeverCompletes(plan: Plan, w: World, freshCheckout: bool)
    requires WellFormed(plan) && Publishable(plan) && !AssetsFit(plan, w)
    ensures !Completes(plan, Checkout(w, freshCheckout))
  {
    hide Publishable, WellFormed, Done, RunPlan, AllCompleted, Grown;
    if Completes(plan, Checkout(w, freshCheckout)) {
      var s := Session(freshCheckout, []);
      CompletedRunsAreDone(plan, External(Checkout(w, freshCheckout), [], []));
      SessionGrows(plan, w, s);
      FinishedFits(plan, w, AfterSession(plan, w, s));
    }
  }

  // ------------------------------------------------------ from which worlds a run completes

  lemma ForeignLocalTagGates(plan: Plan, w: World)
    requires !LocalFits(plan, w)
    ensures !Completes(plan, w)
  {
  }

  /** A failure-free run of a publishable plan completes exactly from the worlds that do not
      contradict the plan, the local tag included. */
  lemma CompletesIffConforms(plan: Plan, w: World)
    requires WellFormed(plan) && Publishable(plan)
    ensures Completes(plan, w) <==> Conforms(plan, w)
  {
    hide RunPlan, AllCompleted, Grown, Done, Publishable, WellFormed;
    if Conforms(plan, w) { CompletesIffPublishable(plan); }
    if Completes(plan, w) {
      var s := Session(false, []);
      CompletedRunsAreDone(plan, External(w, [], []));
      SessionGrows(plan, w, s);
      FinishedFits(plan, w, AfterSession(plan, w, s));
      if !LocalFits(plan, w) { ForeignLocalTagGates(plan, w); }
    }
  }
}
