/** What acceptance of an evidence bundle means, on its own fields; what a recording and a new bundle
    hold; and what the seal protects. */
module EvidenceRules {
  import opened Options
  import opened Json
  import opened Ordering
  import opened Redaction
  import opened Evidence
  import opened EvidenceRuns

  // ------------------------------------------------------------ the validator's rules

  /** A demonstration entry has its fields, with a text id, an object result and a known status. */
  predicate EntryShape(e: Value) {
    && e.Obj? && "title" in e.fields && "started_utc" in e.fields && "finished_utc" in e.fields
    && "id" in e.fields && e.fields["id"].Str?
    && "result" in e.fields && e.fields["result"].Obj?
    && "status" in e.fields && (e.fields["status"] == Str("passed") || e.fields["status"] == Str("failed"))
  }

  /** The id is demanded: three ids of the required list are not asked of artifact qualification. */
  predicate Demanded(id: string, profile: string) {
    id in REQUIRED
    && (profile == "artifact" ==> id != "production_preflight" && id != "supported_upgrade" && id != "upgrade_recovery")
  }

  /** Well-shaped entries with distinct ids that expose nothing. */
  ghost predicate CleanEntries(entries: seq<Value>, secret: string -> bool) {
    && (forall e | e in entries :: EntryShape(e) && forall path :: !Exposes(e, path, secret))
    && forall i, j | 0 <= i < j < |entries| :: Get(entries[i], "id") != Get(entries[j], "id")
  }

  /** Failed with a record, or passed with every demanded entry there and none failed. */
  ghost predicate BornOut(b: Bundle, profile: string) {
    || (b.conclusion == "failed" && b.failure.Some?)
    || (&& b.conclusion == "passed"
        && (forall id | Demanded(id, profile) :: exists e | e in b.demonstrations :: Get(e, "id") == Str(id))
        && forall e | e in b.demonstrations :: Get(e, "status") == Str("passed"))
  }

  /** The candidate is the BOM's, and so is the digest of each artifact. */
  ghost predicate Binds(b: Bundle, bom: BomView) {
    && b.candidate.Some? && b.candidate.value.canonical == bom.canonical && b.candidate.value.commit == bom.commit
    && forall a | a in b.exercised && a.Obj? ::
         exists d | d in bom.digests :: "digest" in a.fields && a.fields["digest"] == Str(d)
  }

  /** A bundle is accepted exactly when it has the schema, a candidate and its own seal, claims the
      qualification asked for, its entries are clean and bear its conclusion out, and it is bound to
      the BOM. */
  lemma AcceptedIff(b: Bundle, bom: Option<BomView>, t: Tools)
    ensures Accepted(b, bom, t) <==>
            var profile := if bom.Some? then bom.value.qualification else "production";
            && b.schema == "phlo.release-candidate-evidence/v1" && b.candidate.Some?
            && b.checksum == t.seal(Content(b))
            && (if b.qualification.Some? then b.qualification.value else "production") == profile
            && CleanEntries(b.demonstrations, t.secret) && BornOut(b, profile)
            && (bom.Some? ==> Binds(b, bom.value))
  {
    hide Content, EntriesValid, ConclusionHolds, CleanEntries, BornOut, Binds, EvidenceRuns.BoundTo;
    CleanIff(b.demonstrations, t.secret);
    if EntriesValid(b.demonstrations, t.secret) {
      AllWellFormed(b.demonstrations, t.secret);
      BornOutIff(b, Profile(bom));
    }
    if bom.Some? && b.candidate.Some? { BindsIff(b, bom.value); }
  }

  lemma AllWellFormed(entries: seq<Value>, secret: string -> bool)
    requires EntriesValid(entries, secret)
    ensures forall e | e in entries :: WellFormed(e)
  {
  }

  lemma CleanIff(entries: seq<Value>, secret: string -> bool)
    ensures EntriesValid(entries, secret) <==> CleanEntries(entries, secret)
  {
    hide Exposes, IsSanitized;
    forall e | e in entries
      ensures WellFormed(e) <==> EntryShape(e)
      ensures IsSanitized(e, secret) <==> forall path :: !Exposes(e, path, secret)
    {
      SanitizedIffNothingExposed(e, secret);
    }
    forall i, j | 0 <= i < j < |entries| && WellFormed(entries[i]) && WellFormed(entries[j])
      ensures Get(entries[i], "id") != Get(entries[j], "id") <==> IdOf(entries[i]) != IdOf(entries[j])
    {
      SameIds(entries[i], entries[j]);
    }
  }

  lemma BornOutIff(b: Bundle, profile: string)
    requires forall e | e in b.demonstrations :: WellFormed(e)
    ensures ConclusionHolds(b, profile) <==> BornOut(b, profile)
  {
    hide REQUIRED;
    forall id ensures id in RequiredFor(profile) <==> Demanded(id, profile) { DemandedIff(id, profile); }
    forall id
      ensures id in Ids(b.demonstrations) <==> exists e | e in b.demonstrations :: Get(e, "id") == Str(id)
    {
      if e :| e in b.demonstrations && Get(e, "id") == Str(id) { assert IdOf(e) == id; }
    }
  }

  lemma BindsIff(b: Bundle, bom: BomView)
    requires b.candidate.Some?
    ensures EvidenceRuns.BoundTo(b, bom) <==> Binds(b, bom)
  {
    hide Known;
    forall a | a in b.exercised { KnownIff(a, bom.digests); }
  }

  lemma KnownIff(a: Value, digests: set<string>)
    ensures Known(a, digests) <==>
            (a.Obj? ==> exists d | d in digests :: "digest" in a.fields && a.fields["digest"] == Str(d))
  {
  }

  lemma DemandedIff(id: string, profile: string)
    ensures id in RequiredFor(profile) <==> Demanded(id, profile)
  {
  }

  // -------------------------------------------------------- what a recording holds

  /** The entry of a recording: every field under its own name, result and artifacts redacted. */
  lemma RecordedEntry(d: Demo, t: Tools)
    requires Usable(t)
    ensures var e := Sanitize(Entry(d), t.secret);
            && Get(e, "id") == Str(d.id) && Get(e, "title") == Str(d.title) && Get(e, "status") == Str(d.status)
            && Get(e, "started_utc") == Str(d.started) && Get(e, "finished_utc") == Str(d.finished)
            && Get(e, "result") == Sanitize(Obj(d.result), t.secret)
            && Get(e, "artifacts") == Sanitize(Arr(d.artifacts), t.secret)
            && Get(e, "error") == (if d.error.Some? then Str(d.error.value) else Null)
  {
    EntryFields(d);
    assert forall k | k in ENTRY_KEYS :: !t.secret(k);
    RedactedFields(Entry(d).fields, t.secret);
    hide Entry, Sanitize;
  }

  lemma EntryFields(d: Demo)
    ensures Entry(d).Obj? && Entry(d).fields.Keys == ENTRY_KEYS
    ensures var fields := Entry(d).fields;
            && fields["id"] == Str(d.id) && fields["title"] == Str(d.title) && fields["status"] == Str(d.status)
            && fields["started_utc"] == Str(d.started) && fields["finished_utc"] == Str(d.finished)
            && fields["result"] == Obj(d.result) && fields["artifacts"] == Arr(d.artifacts)
            && fields["error"] == if d.error.Some? then Str(d.error.value) else Null
  {
  }

  lemma RedactedFields(fields: map<string, Value>, secret: string -> bool)
    ensures Sanitize(Obj(fields), secret).Obj?
    ensures var r := Sanitize(Obj(fields), secret).fields;
            r.Keys == fields.Keys && forall k | k in fields && !secret(k) :: r[k] == Sanitize(fields[k], secret)
  {
  }

  /** A new bundle is failed, empty and sealed, says that it ran on a clean host and not from a
      source checkout whatever it was given, and holds the rest of its environment redacted. */
  lemma NewBundle(candidate: Identity, environment: map<string, Value>, started: string, t: Tools)
    ensures var b := Fresh(candidate, environment, started, t);
            && b.schema == "phlo.release-candidate-evidence/v1" && b.candidate == Some(candidate)
            && b.started == started && b.finished == started
            && b.conclusion == "failed" && b.failure == None && b.demonstrations == [] && b.exercised == []
            && b.checksum == t.seal(Content(b))
            && b.environment.Obj?
            && b.environment.fields.Keys == environment.Keys + {"clean_host", "source_checkout"}
            && b.environment.fields["clean_host"] == Bool(true)
            && b.environment.fields["source_checkout"] == Bool(false)
            && forall k | k in environment && k != "clean_host" && k != "source_checkout" ::
                 b.environment.fields[k] ==
                 if t.secret(k) then Str("[REDACTED]") else Sanitize(environment[k], t.secret)
  {
    hide Content;
    SealIgnoresChecksum(Fresh(candidate, environment, started, t).(checksum := ""), t);
  }

  // ------------------------------------------------------------ what the seal covers

  /** Two bundles with the same sealed content are the same in every field but the checksum. */
  lemma ContentIsEverything(a: Bundle, b: Bundle)
    requires Content(a) == Content(b)
    ensures a.(checksum := "") == b.(checksum := "")
  {
    ContentFields(a);
    ContentFields(b);
    var x, y := Content(a).fields, Content(b).fields;
    hide Content;
    assert forall k | k in x :: x[k] == y[k];
    SameIdentity(a.candidate, b.candidate);
    SameFailure(a.failure, b.failure);
  }

  lemma SameIdentity(a: Option<Evidence.Identity>, b: Option<Evidence.Identity>)
    requires IdentityValue(a) == IdentityValue(b)
    ensures a == b
  {
    if a.Some? && b.Some? {
      var x, y := IdentityValue(a).fields, IdentityValue(b).fields;
      assert x["release_commit"] == y["release_commit"] && x["artifact_count"] == y["artifact_count"];
      assert x["canonical_candidate_digest"] == y["canonical_candidate_digest"];
    }
  }

  lemma SameFailure(a: Option<Failure>, b: Option<Failure>)
    requires FailureValue(a) == FailureValue(b)
    ensures a == b
  {
    if a.Some? && b.Some? {
      var x, y := FailureValue(a).fields, FailureValue(b).fields;
      assert x["demonstration"] == y["demonstration"] && x["error"] == y["error"];
    }
  }

  /** What is hashed holds every field of the bundle but its checksum, under its own name. */
  lemma ContentFields(b: Bundle)
    ensures Content(b).Obj?
    ensures var fields := Content(b).fields;
            && {"schema", "candidate", "environment", "conclusion", "started_utc", "finished_utc", "demonstrations",
                "artifacts_exercised", "failure"} <= fields.Keys
            && fields["schema"] == Str(b.schema) && fields["candidate"] == IdentityValue(b.candidate)
            && fields["environment"] == b.environment && fields["conclusion"] == Str(b.conclusion)
            && fields["started_utc"] == Str(b.started) && fields["finished_utc"] == Str(b.finished)
            && fields["demonstrations"] == Arr(b.demonstrations)
            && fields["artifacts_exercised"] == Arr(b.exercised)
            && fields["failure"] == FailureValue(b.failure)
            && ("qualification" in fields <==> b.qualification.Some?)
            && (b.qualification.Some? ==> fields["qualification"] == Str(b.qualification.value))
  {
    hide IdentityValue, FailureValue;
  }

  /** A sealed bundle with the checksum of another sealed one is that bundle, or the two are a
      collision of the hash. */
  lemma BundlesTamperEvident(a: Bundle, b: Bundle, t: Tools)
    requires IsSealed(a, t) && IsSealed(b, t) && a.checksum == b.checksum
    ensures a == b || (Content(a) != Content(b) && t.seal(Content(a)) == t.seal(Content(b)))
  {
    hide Content;
    if Content(a) == Content(b) {
      ContentIsEverything(a, b);
      assert a == a.(checksum := "").(checksum := a.checksum);
      assert b == b.(checksum := "").(checksum := b.checksum);
    }
  }

  /** So an accepted bundle with the checksum a run ended with is the bundle of that run. */
  lemma RunsTamperEvident(candidate: Identity, environment: map<string, Value>, started: string,
                          qualification: Option<string>, demos: seq<Demo>, finished: string, bom: Option<BomView>,
                          t: Tools, other: Bundle)
    requires var run := RunOf(candidate, environment, started, qualification, demos, finished, t);
             Accepted(other, bom, t) && other.checksum == run.checksum
    ensures var run := RunOf(candidate, environment, started, qualification, demos, finished, t);
            other == run || (Content(other) != Content(run) && t.seal(Content(other)) == t.seal(Content(run)))
  {
    hide Content, Fresh, After, EntriesValid, ConclusionHolds;
    var run := RunOf(candidate, environment, started, qualification, demos, finished, t);
    FinalizedFollowsFirstFailure(After(Fresh(candidate, environment, started, t).(qualification := qualification),
                                       demos, t), finished, t);
    BundlesTamperEvident(other, run, t);
  }
}
