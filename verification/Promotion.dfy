/** The ordered publish steps of a promotion: release tag, PyPI files, images by digest,
    GitHub release. A failed step aborts the rest, which are recorded as not run. */
module Promotion {
  import opened Options
  import opened Staging
  import opened Publication
  import Ordering

  datatype StepId = ReleaseTag | PypiPublish | ImagePromotion | ReleaseFinalisation

  datatype Status = Completed | Planned | Failed | NotRun

  datatype StepResult = StepResult(id: StepId, order: nat, status: Status, bound: seq<Digest>,
                                   commands: seq<seq<Effect>>)

  datatype Progress = Progress(steps: seq<StepResult>, aborted: bool, x: External)

  /** A gate error leaves the promotion at once; nothing is recorded for its step. */
  datatype Run = Gate(reason: string, x: External) | Going(p: Progress)

  function Final(r: Run): External {
    match r
    case Gate(_, x) => x
    case Going(p) => p.x
  }

  /** The outcome of `verify()` followed by `commands()`. */
  datatype Prepared = Blocked(reason: string) | Unready(x: External) | Ready(commands: seq<seq<Effect>>, x: External)

  // ------------------------------------------------------------- the step runner

  /** Run the commands in order. A published-state check, where the step has one, runs
      before the command that ends the draft and again after the last command. */
  function RunCommands(commands: seq<seq<Effect>>, published: Option<External -> Checked>, x: External): Checked {
    if commands == [] then
      if published.Some? then published.value(x) else Checked(true, x)
    else
      var guarded := if published.Some? && commands[0] == [Finalise] then published.value(x) else Checked(true, x);
      if !guarded.ok then guarded
      else
        var ran := RunCommand(guarded.x, commands[0]);
        if !ran.ok then ran else RunCommands(commands[1..], published, ran.x)
  }

  /** One `attempt`, as a function of the progress so far. */
  function AttemptStep(p: Progress, executing: bool, id: StepId, order: nat, bound: seq<Digest>,
                       prepare: External -> Prepared, published: Option<External -> Checked>): Run
  {
    if p.aborted then
      Going(p.(steps := p.steps + [StepResult(id, order, NotRun, [], [])]))
    else
      match prepare(p.x)
      case Blocked(reason) => Gate(reason, p.x)
      case Unready(x) => Going(Progress(p.steps + [StepResult(id, order, Failed, [], [])], true, x))
      case Ready(commands, x) =>
        if executing then
          var ran := RunCommands(commands, published, x);
          if ran.ok then Going(Progress(p.steps + [StepResult(id, order, Completed, bound, commands)], false, ran.x))
          else Going(Progress(p.steps + [StepResult(id, order, Failed, [], [])], true, ran.x))
        else
          Going(Progress(p.steps + [StepResult(id, order, Planned, bound, commands)], false, x))
  }

  class StepRunner {
    const executing: bool
    var steps: seq<StepResult>
    var aborted: bool
    var x: External

    ghost function Now(): Progress
      reads this
    {
      Progress(steps, aborted, x)
    }

    constructor (executing: bool, x: External)
      ensures this.executing == executing && Now() == Progress([], false, x)
    {
      this.executing, this.steps, this.aborted, this.x := executing, [], false, x;
    }

    method Fail(id: StepId, order: nat)
      modifies this`steps, this`aborted
      ensures aborted && steps == old(steps) + [StepResult(id, order, Failed, [], [])]
    {
      aborted := true;
      steps := steps + [StepResult(id, order, Failed, [], [])];
    }

    method Attempt(id: StepId, order: nat, bound: seq<Digest>,
                   prepare: External -> Prepared, published: Option<External -> Checked>) returns (gate: Option<string>)
      modifies this
      ensures AttemptStep(old(Now()), executing, id, order, bound, prepare, published) ==
              if gate.Some? then Gate(gate.value, x) else Going(Now())
      ensures old(aborted) ==>
                gate.None? && aborted && x == old(x) && steps == old(steps) + [StepResult(id, order, NotRun, [], [])]
      ensures !executing && !old(aborted) ==>
                match prepare(old(x))
                case Blocked(reason) => gate == Some(reason) && x == old(x) && steps == old(steps) && !aborted
                case Unready(read) => gate.None? && x == read && aborted
                                      && steps == old(steps) + [StepResult(id, order, Failed, [], [])]
                case Ready(commands, read) => gate.None? && x == read && !aborted
                                              && steps == old(steps) + [StepResult(id, order, Planned, bound, commands)]
    {
      if aborted {
        steps := steps + [StepResult(id, order, NotRun, [], [])];
        return None;
      }
      var recorded: seq<seq<Effect>>;
      match prepare(x) {
        case Blocked(reason) => return Some(reason);
        case Unready(read) =>
          x := read;
          Fail(id, order);
          return None;
        case Ready(commands, read) =>
          x, recorded := read, commands;
      }
      if executing {
        ghost var goal := RunCommands(recorded, published, x);
        for k := 0 to |recorded|
          invariant steps == old(steps) && !aborted
          invariant goal == RunCommands(recorded[k..], published, x)
        {
          if published.Some? && recorded[k] == [Finalise] {
            var guarded := published.value(x);
            x := guarded.x;
            if !guarded.ok {
              Fail(id, order);
              return None;
            }
          }
          var ran := RunCommand(x, recorded[k]);
          x := ran.x;
          if !ran.ok {
            Fail(id, order);
            return None;
          }
        }
        if published.Some? {
          var final := published.value(x);
          x := final.x;
          if !final.ok {
            Fail(id, order);
            return None;
          }
        }
        steps := steps + [StepResult(id, order, Completed, bound, recorded)];
      } else {
        steps := steps + [StepResult(id, order, Planned, bound, recorded)];
      }
      return None;
    }
  }

  // ------------------------------------------------------------ the four steps

  /** Step 1: reject a tag naming another commit, drop commands already satisfied. A local
      lookup that breaks reads as "no such tag". */
  function PrepareTag(plan: Plan, executing: bool, x: External): Prepared {
    var seen := Read(x);
    var local := if seen.ok then x.world.localTag else None;
    if local.Some? && local.value != plan.commit then Blocked("tag_exists")
    else
      var commands := (if local.Some? then [] else [[TagLocally(plan.commit)]]) + [[PushTag]];
      if !executing then Ready(commands, seen.x)
      else
        var read := Read(seen.x);
        var remote := x.world.remoteTag;
        if !read.ok then Unready(read.x)
        else if remote.Some? && remote.value != plan.commit then Unready(read.x)
        else Ready(if remote.Some? then [] else commands, read.x)
  }

  datatype Missing = Differs(x: External) | Lists(missing: seq<Dist>, x: External)

  /** Which staged files PyPI lacks; a file there with other bytes stops the step. */
  function MissingPypi(dists: seq<Dist>, x: External): Missing {
    if dists == [] then Lists([], x)
    else
      var read := Read(x);
      var d := dists[0];
      if !read.ok || (d.key in x.world.pypi && x.world.pypi[d.key] != d.digest) then Differs(read.x)
      else
        match MissingPypi(dists[1..], read.x)
        case Differs(x') => Differs(x')
        case Lists(rest, x') => Lists((if d.key in x.world.pypi then [] else [d]) + rest, x')
  }

  function Uploads(dists: seq<Dist>): seq<Effect> {
    seq(|dists|, i requires 0 <= i < |dists| => UploadDist(dists[i]))
  }

  /** Step 2: one upload command for all missing files, or none. */
  function PreparePypi(plan: Plan, executing: bool, x: External): Prepared {
    if !executing then Ready([Uploads(plan.dists)], x)
    else
      match MissingPypi(plan.dists, x)
      case Differs(x') => Unready(x')
      case Lists(missing, x') => Ready(if missing == [] then [] else [Uploads(missing)], x')
  }

  function PublishedDists(dists: seq<Dist>, x: External): Checked {
    if dists == [] then Checked(true, x)
    else
      var read := Read(x);
      var d := dists[0];
      if !read.ok || d.key !in x.world.pypi || x.world.pypi[d.key] != d.digest then Checked(false, read.x)
      else PublishedDists(dists[1..], read.x)
  }

  /** Step 3: copy an image whose tag is absent, and sign every image by digest. */
  function ImageCommands(images: seq<ImageRef>, x: External): Prepared {
    if images == [] then Ready([], x)
    else
      var read := Read(x);
      var i := images[0];
      if !read.ok || (i.name in x.world.images && x.world.images[i.name] != i.digest) then Unready(read.x)
      else
        match ImageCommands(images[1..], read.x)
        case Blocked(reason) => Blocked(reason)
        case Unready(x') => Unready(x')
        case Ready(rest, x') =>
          Ready((if i.name in x.world.images then [] else [[CopyImage(i)]]) + [[SignImage(i)]] + rest, x')
  }

  function DryRunImageCommands(images: seq<ImageRef>): seq<seq<Effect>> {
    seq(|images|, k requires 0 <= k < |images| => [CopyImage(images[k])])
    + seq(|images|, k requires 0 <= k < |images| => [SignImage(images[k])])
  }

  function PrepareImages(plan: Plan, executing: bool, x: External): Prepared {
    if plan.images == [] then Blocked("invalid_bom")
    else if executing then ImageCommands(plan.images, x)
    else Ready(DryRunImageCommands(plan.images), x)
  }

  /** Every tag points to its digest and every subject has a verified signature. */
  function PublishedImages(images: seq<ImageRef>, x: External): Checked {
    if images == [] then Checked(true, x)
    else
      var resolved := Read(x);
      var i := images[0];
      if !resolved.ok || i.name !in x.world.images || x.world.images[i.name] != i.digest then Checked(false, resolved.x)
      else
        var verified := Read(resolved.x);
        if !verified.ok || (i.name, i.digest) !in x.world.signed then Checked(false, verified.x)
        else PublishedImages(images[1..], verified.x)
  }

  /** The expected digests, by asset name; of two assets with one name the later stays. */
  function Expected(assets: seq<File>): map<string, Digest> {
    if assets == [] then map[]
    else Expected(assets[..|assets| - 1])[assets[|assets| - 1].name := assets[|assets| - 1].digest]
  }

  predicate AssetsAgree(release: Release, expected: map<string, Digest>) {
    forall name | name in expected && name in release.assets :: release.assets[name] == expected[name]
  }

  function AssetUploads(assets: seq<File>, existing: set<string>): seq<seq<Effect>> {
    if assets == [] then []
    else (if assets[0].name in existing then [] else [[UploadAsset(assets[0])]]) + AssetUploads(assets[1..], existing)
  }

  function ReleaseCommands(plan: Plan, release: Option<Release>): seq<seq<Effect>> {
    (if release.Some? then [] else [[CreateRelease]])
    + AssetUploads(plan.assets, if release.Some? then release.value.assets.Keys else {})
    + (if release.None? || release.value.draft then [[Finalise]] else [])
  }

  /** Step 4: create the draft if need be, attach what is missing, then end the draft. */
  function PrepareRelease(plan: Plan, executing: bool, x: External): Prepared {
    if !executing then Ready(ReleaseCommands(plan, None), x)
    else
      var read := Read(x);
      var release := x.world.release;
      if !read.ok || (release.Some? && !AssetsAgree(release.value, Expected(plan.assets))) then Unready(read.x)
      else Ready(ReleaseCommands(plan, release), read.x)
  }

  predicate AssetsAttached(release: Release, expected: map<string, Digest>) {
    forall name | name in expected :: name in release.assets && release.assets[name] == expected[name]
  }

  function PublishedAssets(plan: Plan, x: External): Checked {
    var read := Read(x);
    Checked(read.ok && x.world.release.Some? && AssetsAttached(x.world.release.value, Expected(plan.assets)), read.x)
  }

  // ------------------------------------------------------------------ promote

  function DistDigests(dists: seq<Dist>): seq<Digest> {
    seq(|dists|, i requires 0 <= i < |dists| => dists[i].digest)
  }

  function ImageDigests(images: seq<ImageRef>): seq<Digest> {
    seq(|images|, i requires 0 <= i < |images| => images[i].digest)
  }

  function TagPreparer(plan: Plan, executing: bool): External -> Prepared { x => PrepareTag(plan, executing, x) }

  function PypiPreparer(plan: Plan, executing: bool): External -> Prepared { x => PreparePypi(plan, executing, x) }

  function ImagePreparer(plan: Plan, executing: bool): External -> Prepared { x => PrepareImages(plan, executing, x) }

  function ReleasePreparer(plan: Plan, executing: bool): External -> Prepared {
    x => PrepareRelease(plan, executing, x)
  }

  function PypiCheck(plan: Plan): External -> Checked { x => PublishedDists(plan.dists, x) }

  function ImageCheck(plan: Plan): External -> Checked { x => PublishedImages(plan.images, x) }

  function AssetCheck(plan: Plan): External -> Checked { x => PublishedAssets(plan, x) }

  function Step1(plan: Plan, executing: bool, p: Progress): Run {
    AttemptStep(p, executing, ReleaseTag, 1, [plan.commit], TagPreparer(plan, executing), None)
  }

  function Step2(plan: Plan, executing: bool, p: Progress): Run {
    AttemptStep(p, executing, PypiPublish, 2, DistDigests(plan.dists), PypiPreparer(plan, executing),
                Some(PypiCheck(plan)))
  }

  function Step3(plan: Plan, executing: bool, p: Progress): Run {
    AttemptStep(p, executing, ImagePromotion, 3, ImageDigests(plan.images), ImagePreparer(plan, executing),
                Some(ImageCheck(plan)))
  }

  function Step4(plan: Plan, executing: bool, p: Progress): Run {
    AttemptStep(p, executing, ReleaseFinalisation, 4, [plan.canonical], ReleasePreparer(plan, executing),
                Some(AssetCheck(plan)))
  }

  function RunPlan(plan: Plan, executing: bool, x: External): Run {
    match Step1(plan, executing, Progress([], false, x))
    case Gate(reason, x1) => Gate(reason, x1)
    case Going(p1) =>
      match Step2(plan, executing, p1)
      case Gate(reason, x2) => Gate(reason, x2)
      case Going(p2) =>
        match Step3(plan, executing, p2)
        case Gate(reason, x3) => Gate(reason, x3)
        case Going(p3) => Step4(plan, executing, p3)
  }

  const STEP_ORDER: seq<StepId> := [ReleaseTag, PypiPublish, ImagePromotion, ReleaseFinalisation]

  /** A dry run, the program's default, has no effect, also when a gate ends it. It is gated exactly
      by a local tag on another commit or a BOM without images; otherwise it plans all four steps. */
  lemma DryRunTouchesNothing(plan: Plan, x: External)
    ensures var r := RunPlan(plan, false, x); Final(r).world == x.world && Final(r).log == x.log
    ensures RunPlan(plan, false, x).Gate? <==>
              plan.images == [] || (Next(x).Works? && x.world.localTag.Some? && x.world.localTag.value != plan.commit)
    ensures var r := RunPlan(plan, false, x);
            r.Going? ==>
              && !r.p.aborted && |r.p.steps| == 4
              && forall i | 0 <= i < 4 ::
                   && r.p.steps[i].id == STEP_ORDER[i] && r.p.steps[i].order == i + 1
                   && r.p.steps[i].status == Planned
  {
  }

  /** The four attempts in their fixed order, on one runner. */
  method PromotePlan(plan: Plan, executing: bool, x: External) returns (run: Run)
    ensures run == RunPlan(plan, executing, x)
    ensures !executing ==> Final(run).world == x.world && Final(run).log == x.log
    ensures !executing && run.Going? ==> forall s | s in run.p.steps :: s.status == Planned
  {
    if !executing { DryRunTouchesNothing(plan, x); }
    var runner := new StepRunner(executing, x);
    var gate := runner.Attempt(ReleaseTag, 1, [plan.commit], TagPreparer(plan, executing), None);
    if gate.Some? { return Gate(gate.value, runner.x); }
    gate := runner.Attempt(PypiPublish, 2, DistDigests(plan.dists), PypiPreparer(plan, executing),
                           Some(PypiCheck(plan)));
    if gate.Some? { return Gate(gate.value, runner.x); }
    gate := runner.Attempt(ImagePromotion, 3, ImageDigests(plan.images), ImagePreparer(plan, executing),
                           Some(ImageCheck(plan)));
    if gate.Some? { return Gate(gate.value, runner.x); }
    gate := runner.Attempt(ReleaseFinalisation, 4, [plan.canonical], ReleasePreparer(plan, executing),
                           Some(AssetCheck(plan)));
    if gate.Some? { return Gate(gate.value, runner.x); }
    return Going(Progress(runner.steps, runner.aborted, runner.x));
  }

  /** The staged candidate a promotion starts from. */
  datatype Candidate = Candidate(bom: Bom, bomFile: File, files: seq<File>, archive: Option<File>)

  function PlanOf(c: Candidate): Plan
    requires StagingMatches(c.bom, c.files)
  {
    var artifacts := Distributions(c.bom);
    var images := Images(c.bom);
    Plan(c.bom.commit, c.bom.canonical,
         seq(|artifacts|, i requires 0 <= i < |artifacts| => DistOf(c, artifacts, i)),
         seq(|images|, i requires 0 <= i < |images| => ImageRef(images[i].name, images[i].digest)),
         [c.bomFile] + c.files + if c.archive.Some? then [c.archive.value] else [])
  }

  function DistOf(c: Candidate, artifacts: seq<Artifact>, i: nat): Dist
    requires StagingMatches(c.bom, c.files) && artifacts == Distributions(c.bom) && i < |artifacts|
  {
    var a := artifacts[i];
    assert a.digest in ByDigest(c.files) by {
      assert Digests(artifacts)[i] == a.digest;
      assert a.digest in Ordering.Elements(Digests(artifacts));
    }
    var file := StagedFor(c.files, a.digest);
    Dist(PypiKey(a.name, a.version, file.name), a.digest, file.uploaded)
  }

  /** `promote`: nothing runs unless the staged bytes match the BOM, nor with a token configured. */
  method Promote(c: Candidate, executing: bool, tokenConfigured: bool, x: External) returns (run: Run)
    ensures !StagingMatches(c.bom, c.files) ==> run == Gate("staged_bytes_mismatch", x)
    ensures StagingMatches(c.bom, c.files) ==>
              run == if executing && tokenConfigured then Gate("token_configured", x)
                     else RunPlan(PlanOf(c), executing, x)
    ensures !executing ==> Final(run).world == x.world && Final(run).log == x.log
    ensures !executing && run.Going? ==> forall s | s in run.p.steps :: s.status == Planned
  {
    var verified := VerifyStagedDistributions(c.bom, c.files);
    if verified.Rejected? { return Gate("staged_bytes_mismatch", x); }
    if executing && tokenConfigured { return Gate("token_configured", x); }
    run := PromotePlan(PlanOf(c), executing, x);
  }
}
