/** Whole evidence runs, and which of the bundles they end in the validator accepts. */
module EvidenceRuns {
  import opened Options
  import opened Json
  import opened Ordering
  import opened Redaction
  import opened Evidence

  // --------------------------------------------------------------- what every run keeps

  /** The bundle after recording the demonstrations in order. */
  function After(b: Bundle, demos: seq<Demo>, t: Tools): Bundle {
    if demos == [] then b else Recorded(After(b, demos[..|demos| - 1], t), demos[|demos| - 1], t)
  }

  function AllArtifacts(entries: seq<Value>): set<Value> { set e, a | e in entries && a in ArtifactsOf(e) :: a }

  ghost predicate InTextOrder(artifacts: seq<Value>, t: Tools) {
    forall i, j | 0 <= i < j < |artifacts| ::
      StringLe(t.dump(artifacts[i]), t.dump(artifacts[j])) && artifacts[i] != artifacts[j]
  }

  /** Every entry is redacted, and the exercised artifacts are those of the entries, each once, in
      the order of their text. */
  ghost predicate Kept(b: Bundle, t: Tools) {
    && (forall e | e in b.demonstrations :: IsSanitized(e, t.secret))
    && InTextOrder(b.exercised, t)
    && Elements(b.exercised) == AllArtifacts(b.demonstrations)
  }

  lemma CatalogueFacts(artifacts: set<Value>, t: Tools)
    requires Usable(t)
    ensures InTextOrder(Catalogue(artifacts, t), t) && Elements(Catalogue(artifacts, t)) == artifacts
  {
    StringOrder();
    var texts := SortedSet(StringLe, Dumps(artifacts, t));
    var r := Catalogue(artifacts, t);
    forall i | 0 <= i < |texts| ensures r[i] in artifacts && t.dump(r[i]) == texts[i] {
      assert texts[i] in Elements(texts);
      var a :| a in artifacts && t.dump(a) == texts[i];
    }
    forall a | a in artifacts ensures a in r {
      assert t.dump(a) in Elements(texts);
      var i :| 0 <= i < |texts| && texts[i] == t.dump(a);
      assert r[i] == t.load(t.dump(a));
    }
    forall i, j | 0 <= i < j < |r| ensures StringLe(t.dump(r[i]), t.dump(r[j])) && r[i] != r[j] {
      assert StringLe(texts[i], texts[j]) && texts[i] != texts[j];
    }
  }

  lemma RecordKeeps(b: Bundle, d: Demo, t: Tools)
    requires Usable(t) && Kept(b, t)
    ensures Kept(Recorded(b, d, t), t) && IsSealed(Recorded(b, d, t), t)
  {
    hide Sanitize, Catalogue, IsSanitized, Entry, InTextOrder;
    var entry := Sanitize(Entry(d), t.secret);
    SanitizeEstablishes(Entry(d), t.secret);
    CatalogueFacts(Elements(ArtifactsOf(entry)) + Elements(b.exercised), t);
    var after := b.demonstrations + [entry];
    assert AllArtifacts(after) == AllArtifacts(b.demonstrations) + Elements(ArtifactsOf(entry)) by {
      assert forall e :: e in after <==> e in b.demonstrations || e == entry;
    }
    var merged := Catalogue(Elements(ArtifactsOf(entry)) + Elements(b.exercised), t);
    SealIgnoresChecksum(b.(demonstrations := after, exercised := merged), t);
  }

  lemma SealIgnoresChecksum(b: Bundle, t: Tools)
    ensures IsSealed(Sealed(b, t), t)
  {
  }

  /** Over any sequence of recordings. */
  lemma {:induction false} RunKeeps(b: Bundle, demos: seq<Demo>, t: Tools)
    requires Usable(t) && Kept(b, t)
    ensures Kept(After(b, demos, t), t)
    ensures demos != [] ==> IsSealed(After(b, demos, t), t)
  {
    hide Kept, Recorded;
    if demos != [] {
      RunKeeps(b, demos[..|demos| - 1], t);
      RecordKeeps(After(b, demos[..|demos| - 1], t), demos[|demos| - 1], t);
    }
  }

  /** A run's entries are the redacted demonstrations, in order; nothing else of the bundle changes but the seal. */
  lemma {:induction false} RunRecords(b: Bundle, demos: seq<Demo>, t: Tools)
    ensures var r := After(b, demos, t);
            && |r.demonstrations| == |b.demonstrations| + |demos|
            && r.demonstrations[..|b.demonstrations|] == b.demonstrations
            && (forall k | 0 <= k < |demos| ::
                  r.demonstrations[|b.demonstrations| + k] == Sanitize(Entry(demos[k]), t.secret))
            && r == b.(demonstrations := r.demonstrations, exercised := r.exercised, checksum := r.checksum)
  {
    hide Sanitize, Entry, Catalogue, Content;
    if demos != [] { RunRecords(b, demos[..|demos| - 1], t); }
  }

  // ------------------------------------------------------------------- the validator

  /** The parts of a bill of materials a bundle is bound to. */
  datatype BomView = BomView(commit: string, canonical: string, digests: set<string>, qualification: string)

  datatype Rejection =
    | BadSchema | BadCandidate | BadChecksum | WrongQualification | BadDemonstration(at: nat)
    | RepeatedDemonstration(at: nat) | SecretShaped(at: nat) | BadConclusion | NoFailureRecord | MissingDemonstrations
    | FailedDemonstrations | WrongCandidate | UnknownArtifacts

  const FIELDS: set<string> := {"id", "title", "status", "started_utc", "finished_utc", "result"}

  predicate WellFormed(e: Value) {
    && e.Obj? && FIELDS <= e.fields.Keys && e.fields["id"].Str? && e.fields["result"].Obj?
    && (e.fields["status"] == Str(PASSED) || e.fields["status"] == Str(FAILED))
  }

  function IdOf(e: Value): string
    requires WellFormed(e)
  {
    e.fields["id"].s
  }

  function Ids(entries: seq<Value>): set<string>
    requires forall e | e in entries :: WellFormed(e)
  {
    set e | e in entries :: IdOf(e)
  }

  ghost predicate EntriesValid(entries: seq<Value>, secret: string -> bool) {
    && (forall e | e in entries :: WellFormed(e) && IsSanitized(e, secret))
    && forall i, j | 0 <= i < j < |entries| :: IdOf(entries[i]) != IdOf(entries[j])
  }

  predicate Known(artifact: Value, digests: set<string>) {
    artifact.Obj? ==>
      "digest" in artifact.fields && artifact.fields["digest"].Str? && artifact.fields["digest"].s in digests
  }

  function Profile(bom: Option<BomView>): string { if bom.Some? then bom.value.qualification else PRODUCTION }

  ghost predicate ConclusionHolds(b: Bundle, profile: string)
    requires forall e | e in b.demonstrations :: WellFormed(e)
  {
    || (b.conclusion == FAILED && b.failure.Some?)
    || (b.conclusion == PASSED && RequiredFor(profile) <= Ids(b.demonstrations)
        && forall e | e in b.demonstrations :: e.fields["status"] == Str(PASSED))
  }

  ghost predicate BoundTo(b: Bundle, bom: BomView)
    requires b.candidate.Some?
  {
    && b.candidate.value.canonical == bom.canonical && b.candidate.value.commit == bom.commit
    && forall a | a in b.exercised :: Known(a, bom.digests)
  }

  ghost predicate Accepted(b: Bundle, bom: Option<BomView>, t: Tools) {
    && b.schema == SCHEMA && b.candidate.Some? && IsSealed(b, t)
    && (if b.qualification.Some? then b.qualification.value else PRODUCTION) == Profile(bom)
    && EntriesValid(b.demonstrations, t.secret)
    && ConclusionHolds(b, Profile(bom))
    && (bom.Some? ==> BoundTo(b, bom.value))
  }

  /** `_validate_demonstrations`. */
  method ValidateDemonstrations(entries: seq<Value>, secret: string -> bool)
    returns (r: Option<Rejection>, seen: set<string>)
    ensures r.None? <==> EntriesValid(entries, secret)
    ensures r.None? ==> seen == Ids(entries)
    ensures r.Some? ==> r.value.BadDemonstration? || r.value.RepeatedDemonstration? || r.value.SecretShaped?
    ensures r.Some? ==> r.value.at < |entries|
    ensures r.None? ==> forall e, path | e in entries :: !Exposes(e, path, secret)
    ensures r.Some? && r.value.SecretShaped? ==> exists path :: Exposes(entries[r.value.at], path, secret)
    ensures r.Some? && r.value.RepeatedDemonstration? ==>
              exists j | 0 <= j < r.value.at :: Get(entries[j], "id") == Get(entries[r.value.at], "id")
    ensures r.Some? && r.value.BadDemonstration? ==> !WellFormed(entries[r.value.at])
  {
    hide IsSanitized, WellFormed, Exposes;
    seen := {};
    for k := 0 to |entries|
      invariant EntriesValid(entries[..k], secret) && seen == Ids(entries[..k])
    {
      var e := entries[k];
      assert e in entries && entries[..k + 1] == entries[..k] + [e];
      if !WellFormed(e) { return Some(BadDemonstration(k)), seen; }
      if IdOf(e) in seen {
        var j :| 0 <= j < k && IdOf(entries[..k][j]) == IdOf(e);
        assert entries[j] == entries[..k][j];
        SameIds(entries[j], e);
        return Some(RepeatedDemonstration(k)), seen;
      }
      SanitizedIffNothingExposed(e, secret);
      if !IsSanitized(e, secret) { return Some(SecretShaped(k)), seen; }
      seen := seen + {IdOf(e)};
    }
    assert entries[..|entries|] == entries;
    forall e, path | e in entries ensures !Exposes(e, path, secret) { NothingExposed(e, path, secret); }
    return None, seen;
  }

  lemma SameIds(a: Value, b: Value)
    requires WellFormed(a) && WellFormed(b)
    ensures IdOf(a) == IdOf(b) <==> Get(a, "id") == Get(b, "id")
  {
  }

  /** `validate_bundle`. */
  method ValidateBundle(b: Bundle, bom: Option<BomView>, t: Tools) returns (r: Option<Rejection>)
    ensures r.None? <==> Accepted(b, bom, t)
    ensures r == Some(BadSchema) ==> b.schema != SCHEMA
    ensures r == Some(BadCandidate) ==> b.candidate.None?
    ensures r == Some(BadChecksum) ==> !IsSealed(b, t)
    ensures r == Some(WrongQualification) ==>
              (if b.qualification.Some? then b.qualification.value else PRODUCTION) != Profile(bom)
    ensures r == Some(BadConclusion) ==> b.conclusion != PASSED && b.conclusion != FAILED
    ensures r == Some(NoFailureRecord) ==> b.conclusion == FAILED && b.failure.None?
    ensures r == Some(FailedDemonstrations) ==> exists e | e in b.demonstrations :: Get(e, "status") != Str(PASSED)
    ensures r == Some(WrongCandidate) ==>
              && b.candidate.Some? && bom.Some?
              && (b.candidate.value.canonical != bom.value.canonical || b.candidate.value.commit != bom.value.commit)
    ensures r == Some(MissingDemonstrations) || r == Some(FailedDemonstrations) ==> b.conclusion == PASSED
    ensures r == Some(UnknownArtifacts) ==> bom.Some? && exists a | a in b.exercised :: !Known(a, bom.value.digests)
  {
    hide WellFormed, Content, IsSanitized;
    if b.schema != SCHEMA { return Some(BadSchema); }
    if b.candidate.None? { return Some(BadCandidate); }
    if !IsSealed(b, t) { return Some(BadChecksum); }
    var claimed := if b.qualification.Some? then b.qualification.value else PRODUCTION;
    if claimed != Profile(bom) { return Some(WrongQualification); }
    var problem, seen := ValidateDemonstrations(b.demonstrations, t.secret);
    if problem.Some? { return problem; }
    if b.conclusion != PASSED && b.conclusion != FAILED { return Some(BadConclusion); }
    if b.conclusion != PASSED {
      if b.failure.None? { return Some(NoFailureRecord); }
    } else {
      if !(RequiredFor(Profile(bom)) <= seen) { return Some(MissingDemonstrations); }
      if exists e | e in b.demonstrations :: Get(e, "status") != Str(PASSED) {
        StatusRead(b.demonstrations);
        return Some(FailedDemonstrations);
      }
      StatusRead(b.demonstrations);
    }
    if bom.Some? {
      var ours := b.candidate.value;
      if ours.canonical != bom.value.canonical || ours.commit != bom.value.commit { return Some(WrongCandidate); }
      if exists a | a in b.exercised :: !Known(a, bom.value.digests) { return Some(UnknownArtifacts); }
    }
    return None;
  }

  lemma StatusRead(entries: seq<Value>)
    requires forall e | e in entries :: WellFormed(e)
    ensures forall e | e in entries :: e.Obj? && "status" in e.fields && Get(e, "status") == e.fields["status"]
  {
  }

  // ------------------------------------------------------------------- accepted runs

  /** A passed bundle that is accepted records every required demonstration once, and as passed. */
  lemma PassedRecordsEachOnce(b: Bundle, bom: Option<BomView>, t: Tools, id: string)
    requires Accepted(b, bom, t) && b.conclusion == PASSED && id in RequiredFor(Profile(bom))
    ensures exists k | 0 <= k < |b.demonstrations| ::
              && Get(b.demonstrations[k], "id") == Str(id) && Get(b.demonstrations[k], "status") == Str(PASSED)
              && forall j | 0 <= j < |b.demonstrations| && j != k :: Get(b.demonstrations[j], "id") != Str(id)
  {
    hide IsSanitized, Content, RequiredFor;
    var entries := b.demonstrations;
    assert id in Ids(entries);
    var k :| 0 <= k < |entries| && IdOf(entries[k]) == id;
    assert entries[k] in entries;
    forall j | 0 <= j < |entries| && j != k ensures Get(entries[j], "id") != Str(id) {
      assert entries[j] in entries;
      assert IdOf(entries[j]) != IdOf(entries[k]);
    }
  }

  /** The bundle a driver ends with: started, given a qualification or none, filled and finalized. */
  function RunOf(candidate: Identity, environment: map<string, Value>, started: string, qualification: Option<string>,
                 demos: seq<Demo>, finished: string, t: Tools): Bundle
  {
    Finalized(After(Fresh(candidate, environment, started, t).(qualification := qualification), demos, t), finished, t)
  }

  predicate AllPassed(demos: seq<Demo>) { forall d | d in demos :: d.status == PASSED }

  predicate StatusesKnown(demos: seq<Demo>) { forall d | d in demos :: d.status == PASSED || d.status == FAILED }

  predicate IdsDistinct(demos: seq<Demo>) { forall i, j | 0 <= i < j < |demos| :: demos[i].id != demos[j].id }

  function DemoIds(demos: seq<Demo>): set<string> { set d | d in demos :: d.id }

  function DemoArtifacts(demos: seq<Demo>, t: Tools): set<Value> {
    set d, a | d in demos && a in d.artifacts :: Sanitize(a, t.secret)
  }

  /** What the caller of a run has to get right. */
  ghost predicate Acceptable(candidate: Identity, qualification: Option<string>, demos: seq<Demo>,
                             bom: Option<BomView>, t: Tools)
  {
    && (if qualification.Some? then qualification.value else PRODUCTION) == Profile(bom)
    && StatusesKnown(demos) && IdsDistinct(demos)
    && (AllPassed(demos) ==> RequiredFor(Profile(bom)) <= DemoIds(demos))
    && (bom.Some? ==>
          && candidate.canonical == bom.value.canonical && candidate.commit == bom.value.commit
          && forall a | a in DemoArtifacts(demos, t) :: Known(a, bom.value.digests))
  }

  lemma EntryRead(d: Demo, t: Tools)
    requires Usable(t)
    ensures var e := Sanitize(Entry(d), t.secret);
            && (WellFormed(e) <==> d.status == PASSED || d.status == FAILED)
            && e.Obj? && e.fields.Keys == ENTRY_KEYS
            && e.fields["id"] == Str(d.id) && e.fields["status"] == Str(d.status)
            && (Failing(e) <==> d.status != PASSED)
            && IsSanitized(e, t.secret)
            && ArtifactsOf(e) ==
               seq(|d.artifacts|, i requires 0 <= i < |d.artifacts| => Sanitize(d.artifacts[i], t.secret))
  {
    hide IsSanitized;
    EntryArtifacts(d, t);
    SanitizeEstablishes(Entry(d), t.secret);
    assert FIELDS <= ENTRY_KEYS;
  }

  /** The entries of a run, one for each demonstration. */
  ghost predicate Entries(entries: seq<Value>, demos: seq<Demo>, t: Tools) {
    |entries| == |demos| && forall k | 0 <= k < |demos| :: entries[k] == Sanitize(Entry(demos[k]), t.secret)
  }

  lemma EntriesValidIff(entries: seq<Value>, demos: seq<Demo>, t: Tools)
    requires Usable(t) && Entries(entries, demos, t)
    ensures EntriesValid(entries, t.secret) <==> StatusesKnown(demos) && IdsDistinct(demos)
  {
    hide Sanitize, IsSanitized, WellFormed, Entry;
    forall k | 0 <= k < |demos|
      ensures WellFormed(entries[k]) <==> demos[k].status == PASSED || demos[k].status == FAILED
      ensures IsSanitized(entries[k], t.secret)
      ensures WellFormed(entries[k]) ==> IdOf(entries[k]) == demos[k].id
    {
      EntryRead(demos[k], t);
    }
    if EntriesValid(entries, t.secret) {
      forall d | d in demos ensures d.status == PASSED || d.status == FAILED {
        var k :| 0 <= k < |demos| && demos[k] == d;
        assert entries[k] in entries;
      }
      forall i, j | 0 <= i < j < |demos| ensures demos[i].id != demos[j].id {
        assert entries[i] in entries && entries[j] in entries;
        assert IdOf(entries[i]) != IdOf(entries[j]);
      }
    }
  }

  lemma EntriesFailing(entries: seq<Value>, demos: seq<Demo>, t: Tools)
    requires Usable(t) && Entries(entries, demos, t)
    ensures FirstFailing(entries).None? <==> AllPassed(demos)
    ensures (forall e | e in entries :: WellFormed(e)) ==>
              ((forall e | e in entries :: e.fields["status"] == Str(PASSED)) <==> AllPassed(demos))
  {
    hide Sanitize, WellFormed, Entry, FirstFailing, Failing;
    forall k | 0 <= k < |demos|
      ensures entries[k] in entries && (Failing(entries[k]) <==> demos[k].status != PASSED)
      ensures entries[k].Obj? && "status" in entries[k].fields && entries[k].fields["status"] == Str(demos[k].status)
    {
      EntryRead(demos[k], t);
    }
    assert FirstFailing(entries).Some? ==> exists k | 0 <= k < |entries| :: Failing(entries[k]);
    assert AllPassed(demos) <==> forall k | 0 <= k < |demos| :: demos[k].status == PASSED;
  }

  lemma EntriesIds(entries: seq<Value>, demos: seq<Demo>, t: Tools)
    requires Usable(t) && Entries(entries, demos, t) && forall e | e in entries :: WellFormed(e)
    ensures Ids(entries) == DemoIds(demos)
  {
    hide Sanitize, WellFormed, Entry;
    forall k | 0 <= k < |demos| ensures entries[k] in entries && IdOf(entries[k]) == demos[k].id {
      EntryRead(demos[k], t);
    }
    forall id | id in DemoIds(demos) ensures id in Ids(entries) {
      var d :| d in demos && d.id == id;
      var k :| 0 <= k < |demos| && demos[k] == d;
      assert IdOf(entries[k]) == id;
    }
    forall id | id in Ids(entries) ensures id in DemoIds(demos) {
      var e :| e in entries && IdOf(e) == id;
      var k :| 0 <= k < |entries| && entries[k] == e;
      assert demos[k] in demos;
    }
  }

  lemma EntriesArtifacts(entries: seq<Value>, demos: seq<Demo>, t: Tools)
    requires Usable(t) && Entries(entries, demos, t)
    ensures AllArtifacts(entries) == DemoArtifacts(demos, t)
  {
    hide Sanitize, Entry, ArtifactsOf;
    var all := DemoArtifacts(demos, t);
    forall x | x in AllArtifacts(entries) ensures x in all {
      var e :| e in entries && x in ArtifactsOf(e);
      var k :| 0 <= k < |entries| && entries[k] == e;
      EntryRead(demos[k], t);
      var i :| 0 <= i < |demos[k].artifacts| && x == Sanitize(demos[k].artifacts[i], t.secret);
      assert demos[k] in demos && demos[k].artifacts[i] in demos[k].artifacts;
    }
    forall x | x in all ensures x in AllArtifacts(entries) {
      var d, a :| d in demos && a in d.artifacts && x == Sanitize(a, t.secret);
      var k :| 0 <= k < |demos| && demos[k] == d;
      EntryRead(d, t);
      var i :| 0 <= i < |d.artifacts| && d.artifacts[i] == a;
      assert |ArtifactsOf(entries[k])| == |d.artifacts| && ArtifactsOf(entries[k])[i] == x;
      assert x in ArtifactsOf(entries[k]);
      assert entries[k] in entries;
    }
  }

  lemma RunShape(candidate: Identity, environment: map<string, Value>, started: string, qualification: Option<string>,
                 demos: seq<Demo>, finished: string, t: Tools)
    requires Usable(t)
    ensures var b := RunOf(candidate, environment, started, qualification, demos, finished, t);
            && b.schema == SCHEMA && b.candidate == Some(candidate) && b.qualification == qualification
            && IsSealed(b, t) && Kept(b, t) && Entries(b.demonstrations, demos, t)
            && (b.conclusion == PASSED <==> AllPassed(demos)) && (b.conclusion == FAILED <==> !AllPassed(demos))
            && (b.failure.Some? <==> !AllPassed(demos))
  {
    hide Sanitize, Entry, Content, FirstFailing, IsSanitized, After, Recorded;
    var start := Fresh(candidate, environment, started, t).(qualification := qualification);
    var filled := After(start, demos, t);
    RunRecords(start, demos, t);
    assert Elements(start.exercised) == AllArtifacts(start.demonstrations);
    RunKeeps(start, demos, t);
    EntriesFailing(filled.demonstrations, demos, t);
    FinalizedFollowsFirstFailure(filled, finished, t);
  }

  /** Exactly which runs the validator accepts. Everything else about a bundle, its seal, its
      redaction, its failure record and its list of artifacts, the operations get right by themselves. */
  lemma RunAcceptedIff(candidate: Identity, environment: map<string, Value>, started: string,
                       qualification: Option<string>, demos: seq<Demo>, finished: string,
                       bom: Option<BomView>, t: Tools)
    requires Usable(t)
    ensures Accepted(RunOf(candidate, environment, started, qualification, demos, finished, t), bom, t) <==>
            Acceptable(candidate, qualification, demos, bom, t)
  {
    hide Sanitize, Entry, Content, IsSanitized, WellFormed, RunOf, EntriesValid, RequiredFor, IsSealed, Known,
         Usable, Entries, Kept, AllPassed, ConclusionHolds, BoundTo, StatusesKnown, IdsDistinct, DemoIds, DemoArtifacts;
    var b := RunOf(candidate, environment, started, qualification, demos, finished, t);
    RunShape(candidate, environment, started, qualification, demos, finished, t);
    EntriesValidIff(b.demonstrations, demos, t);
    if EntriesValid(b.demonstrations, t.secret) { RunConclusion(b, demos, Profile(bom), t); }
    if bom.Some? { BoundIff(b, demos, bom.value, t); }
  }

  lemma RunConclusion(b: Bundle, demos: seq<Demo>, profile: string, t: Tools)
    requires Usable(t) && Entries(b.demonstrations, demos, t) && EntriesValid(b.demonstrations, t.secret)
    requires (b.conclusion == PASSED <==> AllPassed(demos)) && (b.conclusion == FAILED <==> !AllPassed(demos))
    requires b.failure.Some? <==> !AllPassed(demos)
    ensures forall e | e in b.demonstrations :: WellFormed(e)
    ensures ConclusionHolds(b, profile) <==> (AllPassed(demos) ==> RequiredFor(profile) <= DemoIds(demos))
  {
    hide RequiredFor, WellFormed, IsSanitized, Entry, Sanitize, Usable, Entries;
    EntriesFailing(b.demonstrations, demos, t);
    EntriesIds(b.demonstrations, demos, t);
    ConclusionIff(b, demos, profile);
  }

  lemma ConclusionIff(b: Bundle, demos: seq<Demo>, profile: string)
    requires forall e | e in b.demonstrations :: WellFormed(e)
    requires (b.conclusion == PASSED <==> AllPassed(demos)) && (b.conclusion == FAILED <==> !AllPassed(demos))
    requires b.failure.Some? <==> !AllPassed(demos)
    requires Ids(b.demonstrations) == DemoIds(demos)
    requires (forall e | e in b.demonstrations :: e.fields["status"] == Str(PASSED)) <==> AllPassed(demos)
    ensures ConclusionHolds(b, profile) <==> (AllPassed(demos) ==> RequiredFor(profile) <= DemoIds(demos))
  {
    hide RequiredFor, WellFormed;
  }

  lemma BoundIff(b: Bundle, demos: seq<Demo>, bom: BomView, t: Tools)
    requires Usable(t) && b.candidate.Some? && Kept(b, t) && Entries(b.demonstrations, demos, t)
    ensures BoundTo(b, bom) <==>
            && b.candidate.value.canonical == bom.canonical && b.candidate.value.commit == bom.commit
            && forall a | a in DemoArtifacts(demos, t) :: Known(a, bom.digests)
  {
    hide Known, Entry, IsSanitized, InTextOrder, AllArtifacts, DemoArtifacts, Entries;
    EntriesArtifacts(b.demonstrations, demos, t);
    assert forall x :: x in b.exercised <==> x in Elements(b.exercised);
  }

  /** Finalizing with nothing recorded concludes "passed" with no failure: the branch for a run
      in which no demonstration completed is never taken. Only the validator stops such a bundle. */
  lemma NothingRecordedPasses(candidate: Identity, environment: map<string, Value>, started: string,
                              qualification: Option<string>, finished: string, bom: Option<BomView>, t: Tools)
    ensures var b := RunOf(candidate, environment, started, qualification, [], finished, t);
            b.conclusion == PASSED && b.failure.None? && !Accepted(b, bom, t)
  {
    hide Sanitize, Content, IsSanitized, EntriesValid, IsSealed;
    var b := RunOf(candidate, environment, started, qualification, [], finished, t);
    assert b.demonstrations == [];
    assert "project_scaffold" in RequiredFor(Profile(bom)) && "project_scaffold" !in Ids(b.demonstrations);
  }
}
