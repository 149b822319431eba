/** The services a promotion publishes to, as one explicit world: a local and a remote
    tag, PyPI files, image tags, signatures and a GitHub release. Every external call may
    fail; a failing command may still have taken effect, in whole or in part, and an asset
    upload that is cut off may leave the asset without its bytes. */
module Publication {
  import opened Options
  import opened Staging

  datatype PypiKey = PypiKey(project: string, version: string, filename: string)

  datatype Release = Release(draft: bool, assets: map<string, Digest>)

  /** `images` maps an image name to what its release-version tag points to; `signed`
      holds the signed subjects (name, digest). An asset without digest maps to `NO_DIGEST`. */
  datatype World = World(
    localTag: Option<Digest>, remoteTag: Option<Digest>,
    pypi: map<PypiKey, Digest>,
    images: map<string, Digest>, signed: set<(string, Digest)>,
    release: Option<Release>)

  const NO_DIGEST: Digest := ""

  datatype Dist = Dist(key: PypiKey, digest: Digest, uploaded: Digest)

  datatype ImageRef = ImageRef(name: string, digest: Digest)

  /** What one promotion publishes, in BOM order. */
  datatype Plan = Plan(commit: Digest, canonical: Digest, dists: seq<Dist>, images: seq<ImageRef>, assets: seq<File>)

  // --------------------------------------------------------------------- effects

  datatype Effect =
    | TagLocally(commit: Digest)
    | PushTag
    | UploadDist(dist: Dist)
    | CopyImage(image: ImageRef)
    | SignImage(image: ImageRef)
    | CreateRelease
    | UploadAsset(asset: File)
    | LeaveStub(asset: File)
    | Finalise

  /** What the tools accept: git and GitHub refuse to overwrite, PyPI refuses other bytes
      under a used filename; `imagetools create` moves a tag wherever it points. */
  predicate Accepts(w: World, e: Effect) {
    match e
    case TagLocally(_) => w.localTag.None?
    case PushTag => w.localTag.Some? && (w.remoteTag.None? || w.remoteTag == w.localTag)
    case UploadDist(d) => d.key !in w.pypi || w.pypi[d.key] == d.uploaded
    case CopyImage(_) => true
    case SignImage(_) => true
    case CreateRelease => w.release.None? && w.remoteTag.Some?
    case UploadAsset(f) => w.release.Some? && f.name !in w.release.value.assets
    case LeaveStub(f) => w.release.Some? && f.name !in w.release.value.assets
    case Finalise => w.release.Some?
  }

  function Apply(w: World, e: Effect): World
    requires Accepts(w, e)
  {
    match e
    case TagLocally(commit) => w.(localTag := Some(commit))
    case PushTag => w.(remoteTag := w.localTag)
    case UploadDist(d) => w.(pypi := w.pypi[d.key := d.uploaded])
    case CopyImage(i) => w.(images := w.images[i.name := i.digest])
    case SignImage(i) => w.(signed := w.signed + {(i.name, i.digest)})
    case CreateRelease => w.(release := Some(Release(true, map[])))
    case UploadAsset(f) => w.(release := Some(w.release.value.(assets := w.release.value.assets[f.name := f.uploaded])))
    case LeaveStub(f) => w.(release := Some(w.release.value.(assets := w.release.value.assets[f.name := NO_DIGEST])))
    case Finalise => w.(release := Some(w.release.value.(draft := false)))
  }

  /** The world after a log of effects, or None if one of them would be refused. */
  ghost function Replay(w: World, log: seq<Effect>): Option<World>
    decreases log
  {
    if log == [] then Some(w)
    else if !Accepts(w, log[0]) then None
    else Replay(Apply(w, log[0]), log[1..])
  }

  // -------------------------------------------------------------- faulty execution

  /** One external call works, or breaks after its first `applied` effects, or is cut off inside
      the effect that comes next. */
  datatype Outcome = Works | Breaks(applied: nat) | CutsOff(applied: nat)

  /** The world, the outcomes still to come (all work once they run out), and the
      effects so far. */
  datatype External = External(world: World, faults: seq<Outcome>, log: seq<Effect>)

  function Next(x: External): Outcome {
    if x.faults == [] then Works else x.faults[0]
  }

  function Consume(x: External): External {
    x.(faults := if x.faults == [] then [] else x.faults[1..])
  }

  datatype Checked = Checked(ok: bool, x: External)

  /** A read of the outside world: it changes nothing, but it can fail. */
  function Read(x: External): Checked {
    Checked(Next(x).Works?, Consume(x))
  }

  /** Apply the first `limit` effects, stopping at one that is refused; `ok` when all were applied. */
  function Perform(x: External, effects: seq<Effect>, limit: nat): Checked
    decreases effects
  {
    if effects == [] then Checked(true, x)
    else if limit == 0 || !Accepts(x.world, effects[0]) then Checked(false, x)
    else Perform(x.(world := Apply(x.world, effects[0]), log := x.log + [effects[0]]), effects[1..], limit - 1)
  }

  /** The effects that happen when a command is cut off: of an asset upload a stub remains, any
      other effect happens whole or not at all. */
  function CutAfter(effects: seq<Effect>, applied: nat): seq<Effect> {
    if applied >= |effects| then effects
    else effects[..applied] + if effects[applied].UploadAsset? then [LeaveStub(effects[applied].asset)] else []
  }

  function RunCommand(x: External, effects: seq<Effect>): Checked {
    match Next(x)
    case Works => Perform(Consume(x), effects, |effects|)
    case Breaks(applied) => Perform(Consume(x), effects, applied).(ok := false)
    case CutsOff(applied) => Perform(Consume(x), CutAfter(effects, applied), applied + 1).(ok := false)
  }
}
