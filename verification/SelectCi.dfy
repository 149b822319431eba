/** Choosing pull-request test lanes: changed paths, the packages that depend on them, and what
    must run in full because it is not recognised. */
module SelectCi {
  import opened Ordering
  import opened Graphs

  /** A changed path as its components. */
  type Path = p: seq<string> | |p| > 0 witness [""]

  datatype Group = Group(name: string, packages: seq<string>)

  datatype Lane = Lane(group: string, packages: seq<string>, version: string)

  datatype Selection =
    | Lanes(lanes: seq<Lane>, python: bool, frontend: bool, writer: bool, integration: bool, docs: bool,
            plugin: bool, mutation: bool)
    | NoGroups
    | NoProject(package: string)

  predicate Under(p: Path, dirs: seq<string>) { |p| > |dirs| && p[..|dirs|] == dirs }

  const PACKAGES: seq<string> := ["packages"]
  const WRITER: seq<string> := ["apps", "phlo-github-writer"]
  const PLUGINS: seq<string> := [".amp", "plugins"]
  const OBSERVATORY: seq<string> := ["packages", "phlo-observatory"]
  const API := "phlo-api"

  /** `isDoc` says whether the last component has a documentation suffix. */
  predicate Inert(p: Path, isDoc: Path -> bool) { isDoc(p) && (Under(p, ["docs"]) || |p| == 1) }

  predicate DocsOnly(paths: set<Path>, isDoc: Path -> bool) { paths != {} && forall p | p in paths :: Inert(p, isDoc) }

  function Changed(paths: set<Path>): set<string> { set p | p in paths && Under(p, PACKAGES) && |p| > 2 :: p[1] }

  function PackageNames(groups: seq<Group>): set<string> { set g, p | g in groups && p in g.packages :: p }

  /** Anything not recognised: no paths, a package in no group, a file directly under
      `packages/`, or a path outside the known trees that is not inert. */
  predicate Broad(paths: set<Path>, groups: seq<Group>, isDoc: Path -> bool) {
    || paths == {}
    || Changed(paths) - PackageNames(groups) != {}
    || (exists p | p in paths :: Under(p, PACKAGES) && |p| < 3)
    || (exists p | p in paths :: !(Under(p, PACKAGES) || Under(p, WRITER) || Under(p, PLUGINS)) && !Inert(p, isDoc))
  }

  /** The requirements on packages of the workspace, as a graph from dependent to dependency. */
  function Needs(names: set<string>, requirements: map<string, seq<string>>): (g: Graph)
    ensures g.Keys == names
  {
    map p | p in names :: set r | r in names && p in requirements && r in requirements[p] :: r
  }

  /** Every package that transitively needs a changed one, the changed ones included. */
  ghost function AffectedBy(needs: Graph, changed: set<string>): set<string> {
    set q | q in needs && ReachesAny(needs, q, changed)
  }

  ghost predicate ReachesAny(g: Graph, q: string, targets: set<string>) { exists p | p in targets :: Reach(g, q, p) }

  // ------------------------------------------------------------------------ lanes

  function GroupLanes(groups: seq<Group>, version: string, pick: Group -> bool): (r: seq<Lane>)
    ensures forall l :: l in r <==> exists g | g in groups && pick(g) :: l == Lane(g.name, g.packages, version)
  {
    if groups == [] then []
    else
      var front, last := groups[..|groups| - 1], groups[|groups| - 1];
      assert groups == front + [last];
      GroupLanes(front, version, pick) + if pick(last) then [Lane(last.name, last.packages, version)] else []
  }

  function AllLanes(groups: seq<Group>, versions: seq<string>, pick: Group -> bool): (r: seq<Lane>)
    ensures forall l :: l in r <==>
              l.version in versions && exists g | g in groups && pick(g) :: l == Lane(g.name, g.packages, l.version)
  {
    if versions == [] then []
    else
      var front, last := versions[..|versions| - 1], versions[|versions| - 1];
      assert versions == front + [last];
      AllLanes(groups, front, pick) + GroupLanes(groups, last, pick)
  }

  // --------------------------------------------------------------------- worklist

  /** Whatever is affected needs a change, and whatever needs a package that is neither pending
      nor the one being expanded is affected. */
  ghost predicate Closing(needs: Graph, changed: set<string>, affected: set<string>, pending: seq<string>,
                          current: string, rest: set<string>)
  {
    && changed <= affected <= needs.Keys
    && (forall p | p in pending :: p in affected)
    && (forall q | q in affected :: ReachesAny(needs, q, changed))
    && (forall d, a {:trigger Edge(needs, d, a)} | Edge(needs, d, a) && a in affected && a !in pending ::
          d in affected || (a == current && d in rest))
  }

  lemma {:induction false} ClosedHoldsWalk(needs: Graph, affected: set<string>, p: seq<string>)
    requires forall d, a {:trigger Edge(needs, d, a)} | Edge(needs, d, a) && a in affected :: d in affected
    requires Walk(needs, p) && p[|p| - 1] in affected
    ensures p[0] in affected
  {
    if |p| > 1 { ClosedHoldsWalk(needs, affected, p[1..]); }
  }

  lemma ClosedHoldsReach(needs: Graph, affected: set<string>, q: string, c: string)
    requires forall d, a {:trigger Edge(needs, d, a)} | Edge(needs, d, a) && a in affected :: d in affected
    requires Reach(needs, q, c) && c in affected
    ensures q in affected
  {
    var p :| Walk(needs, p) && p[0] == q && p[|p| - 1] == c;
    ClosedHoldsWalk(needs, affected, p);
  }

  /** Once nothing is pending the affected set is exactly the transitive dependents. */
  lemma ClosedIsAffected(needs: Graph, changed: set<string>, affected: set<string>)
    requires Closing(needs, changed, affected, [], "", {})
    ensures affected == AffectedBy(needs, changed)
  {
    hide Reach;
    forall q | q in needs && ReachesAny(needs, q, changed) ensures q in affected {
      var c :| c in changed && Reach(needs, q, c);
      ClosedHoldsReach(needs, affected, q, c);
    }
  }

  lemma StepReaches(needs: Graph, d: string, a: string, changed: set<string>)
    requires Edge(needs, d, a) && ReachesAny(needs, a, changed)
    ensures ReachesAny(needs, d, changed)
  {
    var c :| c in changed && Reach(needs, a, c);
    var p :| Walk(needs, p) && p[0] == a && p[|p| - 1] == c;
    var q := [d] + p;
    assert q[1..] == p && Walk(needs, q) && q[|q| - 1] == c;
  }

  /** `dependents`: for each package, the packages that require it. */
  method Dependents(names: set<string>, requirements: map<string, seq<string>>)
    returns (dependents: map<string, set<string>>)
    requires names <= requirements.Keys
    ensures Reversed(dependents, Needs(names, requirements))
  {
    dependents := map p | p in names :: {};
    var rest := names;
    while rest != {}
      invariant rest <= names && dependents.Keys == names
      invariant forall p | p in names :: dependents[p] == set q | q in names - rest && p in requirements[q]
      decreases rest
    {
      var package :| package in rest;
      ghost var before := dependents;
      for i := 0 to |requirements[package]|
        invariant dependents.Keys == names
        invariant forall p | p in names ::
                    dependents[p] == before[p] + if p in requirements[package][..i] then {package} else {}
      {
        var name := requirements[package][i];
        assert requirements[package][..i + 1] == requirements[package][..i] + [name];
        if name in dependents { dependents := dependents[name := dependents[name] + {package}]; }
      }
      assert requirements[package][..|requirements[package]|] == requirements[package];
      rest := rest - {package};
    }
  }

  ghost predicate Reversed(dependents: map<string, set<string>>, needs: Graph) {
    && dependents.Keys == needs.Keys
    && (forall p | p in needs :: dependents[p] <= needs.Keys)
    && (forall p, q | p in needs && q in needs :: q in dependents[p] <==> Edge(needs, q, p))
  }

  lemma PopKeeps(needs: Graph, dependents: map<string, set<string>>, changed: set<string>, affected: set<string>,
                 pending: seq<string>)
    requires Reversed(dependents, needs) && pending != [] && Closing(needs, changed, affected, pending, "", {})
    ensures var popped := pending[|pending| - 1];
            && popped in needs
            && Closing(needs, changed, affected, pending[..|pending| - 1], popped, dependents[popped] - affected)
  {
    hide ReachesAny;
    var popped := pending[|pending| - 1];
    assert pending == pending[..|pending| - 1] + [popped];
  }

  lemma AddKeeps(needs: Graph, dependents: map<string, set<string>>, changed: set<string>, affected: set<string>,
                 pending: seq<string>, current: string, rest: set<string>, dependent: string)
    requires Reversed(dependents, needs) && current in needs && current in affected && dependent in rest
               && rest <= dependents[current]
    requires Closing(needs, changed, affected, pending, current, rest)
    ensures Closing(needs, changed, affected + {dependent}, pending + [dependent], current, rest - {dependent})
  {
    hide ReachesAny;
    StepReaches(needs, dependent, current, changed);
  }

  lemma Expanded(needs: Graph, changed: set<string>, start: set<string>, affected: set<string>, pending: seq<string>,
                 current: string)
    requires start <= affected && Closing(needs, changed, affected, pending, current, {})
    ensures Closing(needs, changed, affected, pending, "", {})
    ensures start != affected ==> needs.Keys - affected < needs.Keys - start
  {
    hide ReachesAny;
    if start != affected {
      var q :| q in affected && q !in start;
      assert q in needs.Keys - start;
    }
  }

  /** The worklist; the packages an entry adds may be taken in any order. */
  method Affected(needs: Graph, dependents: map<string, set<string>>, changed: set<string>)
    returns (affected: set<string>)
    requires changed <= needs.Keys && Reversed(dependents, needs)
    ensures affected == AffectedBy(needs, changed)
  {
    affected := changed;
    var pending := AnyOrder(changed);
    forall q | q in changed ensures ReachesAny(needs, q, changed) { ReachSelf(needs, q); }
    while pending != []
      invariant Closing(needs, changed, affected, pending, "", {})
      decreases needs.Keys - affected, |pending|
    {
      hide Closing, ReachesAny;
      var popped := pending[|pending| - 1];
      PopKeeps(needs, dependents, changed, affected, pending);
      pending := pending[..|pending| - 1];
      ghost var start, left := affected, |pending|;
      var rest := dependents[popped] - affected;
      while rest != {}
        invariant rest <= dependents[popped]
        invariant Closing(needs, changed, affected, pending, popped, rest)
        invariant popped in needs && popped in affected && start <= affected
        invariant start == affected ==> |pending| == left
        decreases rest
      {
        var dependent :| dependent in rest;
        AddKeeps(needs, dependents, changed, affected, pending, popped, rest, dependent);
        rest := rest - {dependent};
        affected := affected + {dependent};
        pending := pending + [dependent];
      }
      Expanded(needs, changed, start, affected, pending, popped);
    }
    ClosedIsAffected(needs, changed, affected);
  }

  /** A list of the set's elements in an order nothing may depend on. */
  method AnyOrder(s: set<string>) returns (r: seq<string>)
    ensures Elements(r) == s
  {
    r := [];
    var rest := s;
    while rest != {}
      invariant rest <= s && Elements(r) == s - rest
      decreases rest
    {
      var x :| x in rest;
      assert forall y :: y in r + [x] <==> y in r || y == x;
      assert Elements(r + [x]) == Elements(r) + {x};
      r := r + [x];
      rest := rest - {x};
    }
  }

  // ---------------------------------------------------------------------- select

  /** What `select` answers, with the affected packages given by reachability. */
  ghost predicate Answers(r: Selection, paths: set<Path>, groups: seq<Group>, requirements: map<string, seq<string>>,
                          isDoc: Path -> bool, versions: seq<string>)
  {
    var names, changed := PackageNames(groups), Changed(paths);
    var inert := exists p | p in paths :: Inert(p, isDoc);
    if groups == [] then r == NoGroups
    else if DocsOnly(paths, isDoc) then r == Lanes([], false, false, false, false, true, false, false)
    else if Broad(paths, groups, isDoc) then
      r == Lanes(AllLanes(groups, versions, (g: Group) => true), true, true, true, true, true, true, true)
    else if !(names <= requirements.Keys) then r.NoProject? && r.package in names - requirements.Keys
    else
      var affected := AffectedBy(Needs(names, requirements), changed);
      r == Lanes(AllLanes(groups, versions, (g: Group) => exists p | p in g.packages :: p in affected),
                 changed != {},
                 API in affected || (exists p | p in paths :: Under(p, OBSERVATORY)),
                 exists p | p in paths :: Under(p, WRITER),
                 changed != {},
                 changed != {} || inert,
                 exists p | p in paths :: Under(p, PLUGINS),
                 API in affected)
  }

  lemma ChangesKnown(paths: set<Path>, groups: seq<Group>, isDoc: Path -> bool)
    requires !Broad(paths, groups, isDoc)
    ensures Changed(paths) <= PackageNames(groups)
  {
    hide PackageNames, Inert, Changed;
    var unknown := Changed(paths) - PackageNames(groups);
    assert unknown == {};
    assert forall c | c in Changed(paths) :: c in PackageNames(groups) || c in unknown;
  }

  /** `select`. Reading the metadata of a package in a group but not on disk raises. */
  method Select(paths: set<Path>, groups: seq<Group>, requirements: map<string, seq<string>>, isDoc: Path -> bool,
                versions: seq<string>)
    returns (r: Selection)
    ensures Answers(r, paths, groups, requirements, isDoc, versions)
  {
    hide AffectedBy, AllLanes, Needs, PackageNames, Broad, DocsOnly, Changed, Inert, Under, Reversed;
    if groups == [] { return NoGroups; }
    if DocsOnly(paths, isDoc) { return Lanes([], false, false, false, false, true, false, false); }
    var changed := Changed(paths);
    if Broad(paths, groups, isDoc) {
      return Lanes(AllLanes(groups, versions, (g: Group) => true), true, true, true, true, true, true, true);
    }
    var names := PackageNames(groups);
    var unread := names - requirements.Keys;
    if unread != {} {
      var package :| package in unread;
      return NoProject(package);
    }
    assert names <= requirements.Keys by { assert forall n | n in names && n !in requirements :: n in unread; }
    ChangesKnown(paths, groups, isDoc);
    var dependents := Dependents(names, requirements);
    var affected := Affected(Needs(names, requirements), dependents, changed);
    var selected := AllLanes(groups, versions, (g: Group) => exists p | p in g.packages :: p in affected);
    r := Lanes(selected,
               changed != {},
               API in affected || (exists p | p in paths :: Under(p, OBSERVATORY)),
               exists p | p in paths :: Under(p, WRITER),
               changed != {},
               changed != {} || (exists p | p in paths :: Inert(p, isDoc)),
               exists p | p in paths :: Under(p, PLUGINS),
               API in affected);
  }

  // ------------------------------------------------------------- what a selection covers

  /** Every group that holds a package transitively needing `package` runs on every version. */
  ghost predicate Exercised(r: Selection, package: string, groups: seq<Group>,
                            requirements: map<string, seq<string>>, versions: seq<string>)
    requires r.Lanes?
  {
    forall g, q, v | && g in groups && q in g.packages && v in versions
                     && Reach(Needs(PackageNames(groups), requirements), q, package) ::
      Lane(g.name, g.packages, v) in r.lanes
  }

  ghost predicate Everything(r: Selection, groups: seq<Group>, versions: seq<string>)
    requires r.Lanes?
  {
    && r.python && r.frontend && r.writer && r.integration && r.docs && r.plugin && r.mutation
    && forall g, v | g in groups && v in versions :: Lane(g.name, g.packages, v) in r.lanes
  }

  /** No changed path that can affect code goes unexercised: it is inert, or everything runs, or
      it belongs to a package whose transitive dependents all run on every version, or to the
      writer or the plugins, whose lanes run. */
  lemma NothingEscapes(r: Selection, paths: set<Path>, groups: seq<Group>, requirements: map<string, seq<string>>,
                       isDoc: Path -> bool, versions: seq<string>, path: Path)
    requires Answers(r, paths, groups, requirements, isDoc, versions) && r.Lanes? && path in paths
    ensures || (Inert(path, isDoc) && r.docs)
            || Everything(r, groups, versions)
            || (Under(path, PACKAGES) && |path| > 2 && path[1] in PackageNames(groups) && r.python && r.integration
                && Exercised(r, path[1], groups, requirements, versions))
            || (Under(path, WRITER) && r.writer)
            || (Under(path, PLUGINS) && r.plugin)
  {
    hide AllLanes, Needs, PackageNames, Reach;
    if !DocsOnly(paths, isDoc) && !Broad(paths, groups, isDoc) && Under(path, PACKAGES) {
      assert path[1] in Changed(paths);
      PackageExercised(r, paths, groups, requirements, isDoc, versions, path[1]);
    }
  }

  lemma PackageExercised(r: Selection, paths: set<Path>, groups: seq<Group>, requirements: map<string, seq<string>>,
                         isDoc: Path -> bool, versions: seq<string>, package: string)
    requires Answers(r, paths, groups, requirements, isDoc, versions) && r.Lanes? && package in Changed(paths)
    requires groups != [] && !DocsOnly(paths, isDoc) && !Broad(paths, groups, isDoc)
    ensures package in PackageNames(groups) && Exercised(r, package, groups, requirements, versions)
  {
    hide AllLanes, Needs, Reach;
    ChangesKnown(paths, groups, isDoc);
    var needs := Needs(PackageNames(groups), requirements);
    forall g, q, v | g in groups && q in g.packages && v in versions && Reach(needs, q, package)
      ensures Lane(g.name, g.packages, v) in r.lanes
    {
      assert q in PackageNames(groups);
      assert q in AffectedBy(needs, Changed(paths));
    }
  }

  /** And outside a full run nothing more runs than a change can reach. */
  lemma NothingWithoutCause(r: Selection, paths: set<Path>, groups: seq<Group>, requirements: map<string, seq<string>>,
                            isDoc: Path -> bool, versions: seq<string>, lane: Lane)
    requires Answers(r, paths, groups, requirements, isDoc, versions) && r.Lanes? && lane in r.lanes
    requires !Broad(paths, groups, isDoc)
    ensures exists q, p | q in lane.packages && p in Changed(paths) ::
              Reach(Needs(PackageNames(groups), requirements), q, p)
  {
    hide AllLanes, Needs, Reach, PackageNames;
    var needs := Needs(PackageNames(groups), requirements);
    var q :| q in lane.packages && q in AffectedBy(needs, Changed(paths));
    var p :| p in Changed(paths) && Reach(needs, q, p);
  }
}
