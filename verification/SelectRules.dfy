/** The CI selection read off the changed paths: which answer is given, and what each lane flag
    stands for. */
module SelectRules {
  import opened Options
  import opened Ordering
  import opened Graphs
  import opened SelectCi

  // ------------------------------------------------------------ paths, by component

  predicate InPackage(p: Path) { |p| > 2 && p[0] == "packages" }

  predicate InWriter(p: Path) { |p| > 2 && p[0] == "apps" && p[1] == "phlo-github-writer" }

  predicate InPlugins(p: Path) { |p| > 2 && p[0] == ".amp" && p[1] == "plugins" }

  /** A documentation file at the top or below `docs/`. */
  predicate Documentation(p: Path, isDoc: Path -> bool) { isDoc(p) && (|p| == 1 || p[0] == "docs") }

  /** The path is one the selection knows what to do with. */
  predicate Recognised(p: Path, groups: seq<Group>, isDoc: Path -> bool) {
    || (InPackage(p) && exists g | g in groups :: p[1] in g.packages)
    || InWriter(p) || InPlugins(p) || Documentation(p, isDoc)
  }

  lemma UnderIff(p: Path)
    ensures Under(p, PACKAGES) <==> |p| > 1 && p[0] == "packages"
    ensures Under(p, WRITER) <==> InWriter(p)
    ensures Under(p, PLUGINS) <==> InPlugins(p)
    ensures Under(p, OBSERVATORY) <==> InPackage(p) && p[1] == "phlo-observatory"
    ensures Under(p, ["docs"]) <==> |p| > 1 && p[0] == "docs"
  {
    if |p| > 1 { assert p[..1] == [p[0]]; }
    if |p| > 2 { assert p[..2] == [p[0], p[1]]; }
  }

  /** The trees a path can lie in exclude one another. */
  lemma PathIs(p: Path, isDoc: Path -> bool)
    ensures Inert(p, isDoc) <==> Documentation(p, isDoc)
    ensures InWriter(p) || InPlugins(p) || Documentation(p, isDoc) ==> !InPackage(p)
    ensures InWriter(p) || InPlugins(p) ==> !Documentation(p, isDoc)
    ensures Under(p, PACKAGES) ==> !InWriter(p) && !InPlugins(p) && !Documentation(p, isDoc)
    ensures Under(p, PACKAGES) && |p| > 2 <==> InPackage(p)
  {
    UnderIff(p);
    assert "packages"[0] == 'p' && "docs"[0] == 'd' && "apps"[0] == 'a' && ".amp"[0] == '.';
  }

  lemma PathsAre(paths: set<Path>, isDoc: Path -> bool)
    ensures forall p | p in paths ::
              && (Inert(p, isDoc) <==> Documentation(p, isDoc))
              && (InWriter(p) || InPlugins(p) || Documentation(p, isDoc) ==> !InPackage(p))
              && (InWriter(p) || InPlugins(p) ==> !Documentation(p, isDoc))
              && (Under(p, PACKAGES) ==> !InWriter(p) && !InPlugins(p) && !Documentation(p, isDoc))
              && (Under(p, PACKAGES) && |p| > 2 <==> InPackage(p))
              && (Under(p, WRITER) <==> InWriter(p)) && (Under(p, PLUGINS) <==> InPlugins(p))
              && (Under(p, OBSERVATORY) <==> InPackage(p) && p[1] == "phlo-observatory")
  {
    hide Under, Inert, Documentation, InPackage, InWriter, InPlugins;
    forall p | p in paths
      ensures && (Inert(p, isDoc) <==> Documentation(p, isDoc))
              && (InWriter(p) || InPlugins(p) || Documentation(p, isDoc) ==> !InPackage(p))
              && (InWriter(p) || InPlugins(p) ==> !Documentation(p, isDoc))
              && (Under(p, PACKAGES) ==> !InWriter(p) && !InPlugins(p) && !Documentation(p, isDoc))
              && (Under(p, PACKAGES) && |p| > 2 <==> InPackage(p))
              && (Under(p, WRITER) <==> InWriter(p)) && (Under(p, PLUGINS) <==> InPlugins(p))
              && (Under(p, OBSERVATORY) <==> InPackage(p) && p[1] == "phlo-observatory")
    {
      UnderIff(p);
      PathIs(p, isDoc);
    }
  }

  lemma ChangedIff(paths: set<Path>, c: string)
    ensures c in Changed(paths) <==> exists p | p in paths :: InPackage(p) && p[1] == c
  {
    forall p | p in paths ensures Under(p, PACKAGES) <==> |p| > 1 && p[0] == "packages" { UnderIff(p); }
  }

  /** Everything is run exactly for an empty diff or one with a path that is not recognised. */
  lemma BroadIff(paths: set<Path>, groups: seq<Group>, isDoc: Path -> bool)
    ensures Broad(paths, groups, isDoc) <==> paths == {} || exists p | p in paths :: !Recognised(p, groups, isDoc)
  {
    hide Under, Changed, Inert, Documentation, PackageNames, InPackage, InWriter, InPlugins;
    PathsAre(paths, isDoc);
    var unknown := Changed(paths) - PackageNames(groups);
    forall p | p in paths && InPackage(p)
      ensures p[1] in unknown <==> !exists g | g in groups :: p[1] in g.packages
    {
      ChangedIff(paths, p[1]);
      NamedIff(groups, p[1]);
    }
    assert forall p | p in paths && Under(p, PACKAGES) :: Recognised(p, groups, isDoc) <==> |p| > 2 && p[1] !in unknown;
    if unknown != {} {
      var c :| c in unknown;
      ChangedIff(paths, c);
      var p :| p in paths && InPackage(p) && p[1] == c;
      assert !Recognised(p, groups, isDoc);
    }
  }

  lemma NamedIff(groups: seq<Group>, package: string)
    ensures package in PackageNames(groups) <==> exists g | g in groups :: package in g.packages
  {
  }

  // ---------------------------------------------------------- what the flags mean

  /** A dependency is a requirement of one workspace package on another. */
  lemma NeedsIff(names: set<string>, requirements: map<string, seq<string>>, q: string, p: string)
    ensures Edge(Needs(names, requirements), q, p) <==>
            q in names && p in names && q in requirements && p in requirements[q]
  {
  }

  /** The package or one it needs, directly or not, has a changed file. */
  ghost predicate NeedsAChange(package: string, paths: set<Path>, groups: seq<Group>,
                               requirements: map<string, seq<string>>)
  {
    && package in PackageNames(groups)
    && exists p | p in paths :: InPackage(p) && Reach(Needs(PackageNames(groups), requirements), package, p[1])
  }

  lemma AffectedIff(package: string, paths: set<Path>, groups: seq<Group>, requirements: map<string, seq<string>>)
    ensures package in AffectedBy(Needs(PackageNames(groups), requirements), Changed(paths)) <==>
            NeedsAChange(package, paths, groups, requirements)
  {
    hide Reach, Changed, Under, PackageNames;
    var needs := Needs(PackageNames(groups), requirements);
    if package in AffectedBy(needs, Changed(paths)) {
      var c :| c in Changed(paths) && Reach(needs, package, c);
      ChangedIff(paths, c);
    }
    forall p | p in paths && InPackage(p) ensures p[1] in Changed(paths) { ChangedIff(paths, p[1]); }
  }

  /** Lanes come version by version, and group by group within one. */
  lemma {:induction false} LanesJoin(groups: seq<Group>, a: seq<string>, b: seq<string>, pick: Group -> bool)
    ensures AllLanes(groups, a + b, pick) == AllLanes(groups, a, pick) + AllLanes(groups, b, pick)
    ensures forall v :: AllLanes(groups, [v], pick) == GroupLanes(groups, v, pick)
    decreases b
  {
    hide GroupLanes;
    forall v ensures AllLanes(groups, [v], pick) == GroupLanes(groups, v, pick) {
      assert [v][..0] == [] && [] + GroupLanes(groups, v, pick) == GroupLanes(groups, v, pick);
    }
    if b == [] {
      assert a + b == a;
    } else {
      var front, last := b[..|b| - 1], b[|b| - 1];
      assert (a + b)[..|a + b| - 1] == a + front && (a + b)[|a + b| - 1] == last;
      LanesJoin(groups, a, front, pick);
      assert AllLanes(groups, a, pick) + AllLanes(groups, front, pick) + GroupLanes(groups, last, pick) ==
             AllLanes(groups, a, pick) + (AllLanes(groups, front, pick) + GroupLanes(groups, last, pick));
    }
  }

  lemma {:induction false} GroupLanesJoin(a: seq<Group>, b: seq<Group>, version: string, pick: Group -> bool)
    ensures GroupLanes(a + b, version, pick) == GroupLanes(a, version, pick) + GroupLanes(b, version, pick)
    decreases b
  {
    if b == [] {
      assert a + b == a;
    } else {
      var front, last := b[..|b| - 1], b[|b| - 1];
      assert (a + b)[..|a + b| - 1] == a + front && (a + b)[|a + b| - 1] == last;
      GroupLanesJoin(a, front, version, pick);
    }
  }

  /** Which of the answers is given, and for a targeted one what decides each flag and lane. */
  lemma SelectionMeans(r: Selection, paths: set<Path>, groups: seq<Group>, requirements: map<string, seq<string>>,
                       isDoc: Path -> bool, versions: seq<string>)
    requires Answers(r, paths, groups, requirements, isDoc, versions) && groups != []
    ensures paths != {} && (forall p | p in paths :: Documentation(p, isDoc)) ==>
              r == Lanes([], false, false, false, false, true, false, false)
    ensures paths == {} || (exists p | p in paths :: !Recognised(p, groups, isDoc)) ==>
              r.Lanes? && Everything(r, groups, versions)
    ensures r.Lanes?
            || (r.NoProject? && r.package !in requirements && exists g | g in groups :: r.package in g.packages)
    ensures (forall g, q | g in groups && q in g.packages :: q in requirements) ==> r.Lanes?
    ensures r.Lanes? && paths != {} && (forall p | p in paths :: Recognised(p, groups, isDoc))
            && (exists p | p in paths :: !Documentation(p, isDoc)) ==>
              var api := NeedsAChange("phlo-api", paths, groups, requirements);
              && (r.python <==> exists p | p in paths :: InPackage(p))
              && (r.integration <==> exists p | p in paths :: InPackage(p))
              && (r.frontend <==> api || exists p | p in paths :: InPackage(p) && p[1] == "phlo-observatory")
              && (r.mutation <==> api)
              && (r.writer <==> exists p | p in paths :: InWriter(p))
              && (r.plugin <==> exists p | p in paths :: InPlugins(p))
              && (r.docs <==> exists p | p in paths :: InPackage(p) || Documentation(p, isDoc))
              && forall l :: l in r.lanes <==>
                   && l.version in versions
                   && exists g | g in groups ::
                        && l == Lane(g.name, g.packages, l.version)
                        && exists q | q in g.packages :: NeedsAChange(q, paths, groups, requirements)
  {
    hide Under, Changed, Inert, Documentation, PackageNames, Broad, AffectedBy, NeedsAChange, Needs, InPackage,
         InWriter, InPlugins, Recognised;
    BroadIff(paths, groups, isDoc);
    PathsAre(paths, isDoc);
    DocsRecognised(paths, groups, isDoc);
    if r.NoProject? { NamedIff(groups, r.package); }
    var affected := AffectedBy(Needs(PackageNames(groups), requirements), Changed(paths));
    forall q ensures q in affected <==> NeedsAChange(q, paths, groups, requirements) {
      AffectedIff(q, paths, groups, requirements);
    }
    if c :| c in Changed(paths) { ChangedIff(paths, c); }
    forall p | p in paths && InPackage(p) ensures p[1] in Changed(paths) { ChangedIff(paths, p[1]); }
  }

  lemma DocsRecognised(paths: set<Path>, groups: seq<Group>, isDoc: Path -> bool)
    ensures forall p | p in paths && Documentation(p, isDoc) :: Recognised(p, groups, isDoc)
  {
  }
}
