/** The evidence bundle: recording demonstrations, sealing, and the validator that decides which
    bundles count. */
module Evidence {
  import opened Options
  import opened Json
  import opened JsonText
  import opened Ordering
  import opened Redaction

  /** The redaction pattern, JSON text with sorted keys and its parser, and SHA-256 of the canonical content. */
  datatype Tools = Tools(secret: string -> bool, dump: Value -> string, load: string -> Value, seal: Value -> string)

  datatype Identity = Identity(commit: string, canonical: string, count: int)

  datatype Failure = Failure(demonstration: Value, error: Value)

  /** `candidate` is absent when the bundle's one is malformed. */
  datatype Bundle = Bundle(schema: string, candidate: Option<Identity>, qualification: Option<string>,
                           environment: Value,
                           started: string, finished: string, conclusion: string, demonstrations: seq<Value>,
                           exercised: seq<Value>, failure: Option<Failure>, checksum: string)

  /** What a caller records. */
  datatype Demo = Demo(id: string, title: string, status: string, started: string, finished: string,
                       result: map<string, Value>, artifacts: seq<Value>, error: Option<string>)

  const SCHEMA := "phlo.release-candidate-evidence/v1"
  const PASSED := "passed"
  const FAILED := "failed"
  const PRODUCTION := "production"
  const ARTIFACT := "artifact"

  const PRODUCTION_ONLY: set<string> := {"production_preflight", "supported_upgrade", "upgrade_recovery"}

  const REQUIRED: set<string> :=
    {"candidate_bom_verification", "operator_installation", "observatory_installed_journeys", "project_scaffold",
     "production_preflight", "negative_security", "stack_start", "ingestion_materialization", "storage_probe",
     "row_query_initial", "transformation_materialization", "row_query_transform", "wap_configuration", "wap_promotion",
     "wap_rejection", "run_report", "plan_first_maintenance", "backup_creation", "backup_verification",
     "restore_explicit_target", "supported_upgrade", "upgrade_recovery", "row_query_final",
     "support_boundary_consistency"}

  function RequiredFor(qualification: string): set<string> {
    if qualification == ARTIFACT then REQUIRED - PRODUCTION_ONLY else REQUIRED
  }

  // ------------------------------------------------------------------------ seals

  function IdentityValue(c: Option<Identity>): Value {
    if c.None? then Null
    else Obj(map["release_commit" := Str(c.value.commit), "canonical_candidate_digest" := Str(c.value.canonical),
                 "artifact_count" := Int(c.value.count)])
  }

  function FailureValue(f: Option<Failure>): Value {
    if f.None? then Null else Obj(map["demonstration" := f.value.demonstration, "error" := f.value.error])
  }

  /** Everything but the checksum. */
  function Content(b: Bundle): Value {
    var fields := map["schema" := Str(b.schema), "candidate" := IdentityValue(b.candidate),
                      "environment" := b.environment, "conclusion" := Str(b.conclusion),
                      "started_utc" := Str(b.started), "finished_utc" := Str(b.finished),
                      "demonstrations" := Arr(b.demonstrations), "artifacts_exercised" := Arr(b.exercised),
                      "failure" := FailureValue(b.failure)];
    Obj(if b.qualification.Some? then fields["qualification" := Str(b.qualification.value)] else fields)
  }

  function Sealed(b: Bundle, t: Tools): Bundle { b.(checksum := t.seal(Content(b))) }

  predicate IsSealed(b: Bundle, t: Tools) { b.checksum == t.seal(Content(b)) }

  // ------------------------------------------------------------------- operations

  function Entry(d: Demo): Value {
    Obj(map["id" := Str(d.id), "title" := Str(d.title), "status" := Str(d.status), "started_utc" := Str(d.started),
            "finished_utc" := Str(d.finished), "result" := Obj(d.result), "artifacts" := Arr(d.artifacts),
            "error" := if d.error.Some? then Str(d.error.value) else Null])
  }

  const ENTRY_KEYS: set<string> :=
    {"id", "title", "status", "started_utc", "finished_utc", "result", "artifacts", "error"}

  /** What the code relies on: no entry key looks secret, and JSON text reads back to what was written. */
  ghost predicate Usable(t: Tools) {
    (forall k | k in ENTRY_KEYS :: !t.secret(k)) && forall v :: t.load(t.dump(v)) == v
  }

  /** Such tools exist, whatever redaction pattern without the entry keys and whatever hash. */
  lemma UsableToolsExist(secret: string -> bool, seal: Value -> string) returns (t: Tools)
    requires forall k | k in ENTRY_KEYS :: !secret(k)
    ensures Usable(t) && t.secret == secret && t.seal == seal
  {
    hide Text, Parsed;
    t := Tools(secret, v => Text(v), s => Parsed(s), seal);
    forall v ensures t.load(t.dump(v)) == v { ParsedText(v); }
  }

  function ArtifactsOf(entry: Value): seq<Value> {
    if entry.Obj? && "artifacts" in entry.fields && entry.fields["artifacts"].Arr? then entry.fields["artifacts"].items
    else []
  }

  function Dumps(artifacts: set<Value>, t: Tools): set<string> { set a | a in artifacts :: t.dump(a) }

  function Loads(texts: seq<string>, t: Tools): (r: seq<Value>)
    ensures |r| == |texts| && forall i | 0 <= i < |r| :: r[i] == t.load(texts[i])
  {
    seq(|texts|, i requires 0 <= i < |texts| => t.load(texts[i]))
  }

  /** Artifacts without repetition, in the order of their JSON text. */
  function Catalogue(artifacts: set<Value>, t: Tools): seq<Value> {
    StringOrder();
    Loads(SortedSet(StringLe, Dumps(artifacts, t)), t)
  }

  function Recorded(b: Bundle, d: Demo, t: Tools): Bundle {
    var entry := Sanitize(Entry(d), t.secret);
    Sealed(b.(demonstrations := b.demonstrations + [entry],
              exercised := Catalogue(Elements(ArtifactsOf(entry)) + Elements(b.exercised), t)), t)
  }

  function Get(v: Value, key: string): Value { if v.Obj? && key in v.fields then v.fields[key] else Null }

  predicate Failing(entry: Value) { entry.Obj? && Get(entry, "status") != Str(PASSED) }

  /** The first failing demonstration, if any. */
  function FirstFailing(entries: seq<Value>): (r: Option<Value>)
    ensures r.Some? <==> exists e | e in entries :: Failing(e)
    ensures r.Some? ==>
              exists k | 0 <= k < |entries| ::
                r.value == entries[k] && Failing(entries[k]) && forall i | 0 <= i < k :: !Failing(entries[i])
  {
    if entries == [] then None
    else if Failing(entries[0]) then Some(entries[0])
    else
      assert entries == [entries[0]] + entries[1..];
      FirstFailing(entries[1..])
  }

  /** The conclusion and failure record that follow from the demonstrations. */
  function Concluded(b: Bundle): Bundle {
    var first := FirstFailing(b.demonstrations);
    if first.Some? then
      b.(conclusion := FAILED, failure := Some(Failure(Get(first.value, "id"), Get(first.value, "error"))))
    else
      b.(conclusion := PASSED, failure := None)
  }

  predicate LacksFailure(b: Bundle) { b.conclusion == FAILED && b.failure.None? }

  const NOTHING_COMPLETED := Failure(Null, Str("no demonstration completed"))

  function Finalized(b: Bundle, finished: string, t: Tools): Bundle {
    var c := Concluded(b);
    Sealed((if LacksFailure(c) then c.(failure := Some(NOTHING_COMPLETED)) else c).(finished := finished), t)
  }

  /** For every bundle: it concludes "passed" exactly when no demonstration fails, otherwise its
      failure record is the first failing one's; the branch for a failed bundle without a
      record is never taken. */
  lemma FinalizedFollowsFirstFailure(b: Bundle, finished: string, t: Tools)
    ensures !LacksFailure(Concluded(b))
    ensures var r := Finalized(b, finished, t);
            && (r.conclusion == PASSED <==> forall e | e in b.demonstrations :: !Failing(e))
            && (r.conclusion == FAILED <==> exists e | e in b.demonstrations :: Failing(e))
            && (r.failure.None? <==> r.conclusion == PASSED)
            && IsSealed(r, t)
    ensures var r := Finalized(b, finished, t);
            r.conclusion == FAILED ==>
              exists k | 0 <= k < |b.demonstrations| ::
                && Failing(b.demonstrations[k]) && (forall i | 0 <= i < k :: !Failing(b.demonstrations[i]))
                && r.failure == Some(Failure(Get(b.demonstrations[k], "id"), Get(b.demonstrations[k], "error")))
  {
    hide Failing;
    var first := FirstFailing(b.demonstrations);
    if first.Some? {
      var k :| 0 <= k < |b.demonstrations| && first.value == b.demonstrations[k] && Failing(b.demonstrations[k])
               && forall i | 0 <= i < k :: !Failing(b.demonstrations[i]);
    }
  }

  function Fresh(candidate: Identity, environment: map<string, Value>, started: string, t: Tools): Bundle {
    var clean := Sanitize(Obj(environment), t.secret).fields;
    Sealed(Bundle(SCHEMA, Some(candidate), None,
                  Obj(clean["clean_host" := Bool(true)]["source_checkout" := Bool(false)]),
                  started, started, FAILED, [], [], None, ""), t)
  }

  /** The bundle as the drivers hold and change it. `qualification` may be set without resealing. */
  class EvidenceBundle {
    const tools: Tools
    const candidate: Identity
    const environment: Value
    const started: string
    var qualification: Option<string>
    var finished: string
    var conclusion: string
    var demonstrations: seq<Value>
    var exercised: seq<Value>
    var failure: Option<Failure>
    var checksum: string

    function Snapshot(): Bundle
      reads this
    {
      Bundle(SCHEMA, Some(candidate), qualification, environment, started, finished, conclusion, demonstrations,
             exercised, failure, checksum)
    }

    /** `new_bundle`. */
    constructor (candidate: Identity, environment: map<string, Value>, now: string, tools: Tools)
      ensures this.tools == tools && Snapshot() == Fresh(candidate, environment, now, tools)
    {
      this.tools, this.candidate := tools, candidate;
      var clean := Sanitize(Obj(environment), tools.secret).fields;
      this.environment := Obj(clean["clean_host" := Bool(true)]["source_checkout" := Bool(false)]);
      started, finished, conclusion := now, now, FAILED;
      qualification, demonstrations, exercised, failure := None, [], [], None;
      checksum := "";
      new;
      checksum := tools.seal(Content(Snapshot()));
    }

    /** `record_demonstration`: artifacts are collected through their JSON texts. */
    method Record(d: Demo)
      requires Usable(tools)
      modifies this`demonstrations, this`exercised, this`checksum
      ensures Snapshot() == Recorded(old(Snapshot()), d, tools)
    {
      hide Content, Entry, Sanitize, Dumps, Catalogue;
      var entry := Sanitize(Entry(d), tools.secret);
      demonstrations := demonstrations + [entry];
      EntryArtifacts(d, tools);
      var texts := TextsOf(entry.fields["artifacts"].items, exercised);
      CatalogueOf(Elements(ArtifactsOf(entry)) + Elements(exercised), texts, tools);
      exercised := Loads(SortedSet(StringLe, texts), tools);
      checksum := tools.seal(Content(Snapshot()));
    }

    /** The JSON texts of the new artifacts and of those already there, each once. */
    method TextsOf(added: seq<Value>, existing: seq<Value>) returns (texts: set<string>)
      ensures texts == Dumps(Elements(added) + Elements(existing), tools)
    {
      texts := set a | a in added :: tools.dump(a);
      ghost var start := texts;
      for i := 0 to |existing|
        invariant texts == start + Dumps(Elements(existing[..i]), tools)
      {
        assert existing[..i + 1] == existing[..i] + [existing[i]];
        texts := texts + {tools.dump(existing[i])};
      }
      assert existing[..|existing|] == existing;
    }

    /** `finalize_bundle`. */
    method Finalize(now: string)
      modifies this`conclusion, this`failure, this`finished, this`checksum
      ensures Snapshot() == Finalized(old(Snapshot()), now, tools)
    {
      var first := FirstFailing(demonstrations);
      if first.Some? {
        conclusion := FAILED;
        failure := Some(Failure(Get(first.value, "id"), Get(first.value, "error")));
      } else {
        conclusion := PASSED;
        failure := None;
      }
      failure := if conclusion == FAILED && failure.None? then Some(NOTHING_COMPLETED) else failure;
      finished := now;
      checksum := tools.seal(Content(Snapshot()));
    }
  }

  lemma CatalogueOf(artifacts: set<Value>, texts: set<string>, t: Tools)
    requires texts == Dumps(artifacts, t)
    ensures TotalOrder(StringLe) && Loads(SortedSet(StringLe, texts), t) == Catalogue(artifacts, t)
  {
    StringOrder();
  }

  lemma EntryArtifacts(d: Demo, t: Tools)
    requires Usable(t)
    ensures var e := Sanitize(Entry(d), t.secret);
            && e.Obj? && e.fields.Keys == ENTRY_KEYS
            && e.fields["id"] == Str(d.id) && e.fields["status"] == Str(d.status) && e.fields["result"].Obj?
            && e.fields["artifacts"] == Sanitize(Arr(d.artifacts), t.secret) && e.fields["artifacts"].Arr?
            && ArtifactsOf(e) == e.fields["artifacts"].items
  {
    assert Entry(d).fields.Keys == ENTRY_KEYS;
  }
}
