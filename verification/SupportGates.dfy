/** Release gates in the support manifest: the checks on each component, on the gate table
    and on release readiness, and the release rule they add up to. */
module SupportGates {
  import opened Options
  import opened Ordering
  import Pep440

  datatype Component = Component(name: string, status: string, applicable: seq<string>, blockedBy: seq<string>,
                                 evidence: seq<string>)

  datatype Gates = Gates(required: seq<string>, status: map<string, string>, components: seq<Component>)

  /** `version` is None when the text is not a PEP 440 version. */
  datatype Manifest = Manifest(gates: Gates, productionStatus: string, productionReady: bool, maturity: string,
                               version: Option<Pep440.Version>)

  const REQUIRED_V1_GATES := ["security", "run_evidence", "maintenance", "upgrade_restore", "golden_path"]

  datatype Error =
    | BadEvidence | UnknownGates | NoApplicableGates | BlockedByNotDerived | StatusNotDerived | NoEvidence
    | DuplicateComponents | NotBlessedCore | RequiredMismatch
    | ProductionStatusNotDerived | ReadyWithoutGates | MaturityMismatch | NotAVersion | OneWithoutReady

  // ------------------------------------------------------------ gate components

  function BlockedBy(c: Component, status: map<string, string>): set<string> {
    set g | g in c.applicable && g in status && status[g] != "passed"
  }

  function DerivedStatus(c: Component, status: map<string, string>): string {
    if c.applicable == [] then "not_required"
    else if BlockedBy(c, status) == {} then "passed"
    else "blocked"
  }

  /** A component the checks have nothing to say about. */
  predicate Derived(c: Component, status: map<string, string>) {
    && (forall g | g in c.applicable :: g in status)
    && Elements(c.blockedBy) == BlockedBy(c, status)
    && c.status == DerivedStatus(c, status)
    && (c.status in {"passed", "not_required"} ==> c.evidence != [])
  }

  /** `_gate_component_errors`; `badEvidence` stands for the checks on evidence entries. */
  method GateComponentErrors(c: Component, status: map<string, string>, badEvidence: seq<string> -> bool)
    returns (errors: seq<Error>)
    ensures errors == [] <==> Derived(c, status) && !badEvidence(c.evidence)
  {
    errors := if badEvidence(c.evidence) then [BadEvidence] else [];
    var applicable := Elements(c.applicable);
    if applicable - status.Keys != {} { errors := errors + [UnknownGates]; }
    assert applicable - status.Keys == {} <==> forall g | g in c.applicable :: g in status by {
      assert forall g :: g in c.applicable <==> g in applicable;
      if applicable - status.Keys == {} {
        forall g | g in applicable ensures g in status { assert g !in applicable - status.Keys; }
      }
    }
    var blockedBy := BlockedBy(c, status);
    if c.applicable == [] && c.status != "not_required" { errors := errors + [NoApplicableGates]; }
    if Elements(c.blockedBy) != blockedBy { errors := errors + [BlockedByNotDerived]; }
    var expected := if c.applicable == [] then "not_required" else if blockedBy == {} then "passed" else "blocked";
    if c.status != expected { errors := errors + [StatusNotDerived]; }
    if c.status in {"passed", "not_required"} && c.evidence == [] { errors := errors + [NoEvidence]; }
  }

  // -------------------------------------------------------------- the gate table

  function Names(components: seq<Component>): (names: seq<string>)
    ensures |names| == |components| && forall i | 0 <= i < |names| :: names[i] == components[i].name
  {
    seq(|components|, i requires 0 <= i < |components| => components[i].name)
  }

  ghost predicate GatesConsistent(gates: Gates, blessed: set<string>, badEvidence: seq<string> -> bool) {
    && |Names(gates.components)| == |Elements(Names(gates.components))|
    && Elements(Names(gates.components)) == blessed
    && Elements(gates.required) == gates.status.Keys
    && (forall c | c in gates.components :: Derived(c, gates.status) && !badEvidence(c.evidence))
  }

  /** `_gate_errors`. */
  method GateErrors(gates: Gates, blessed: set<string>, badEvidence: seq<string> -> bool) returns (errors: seq<Error>)
    ensures errors == [] <==> GatesConsistent(gates, blessed, badEvidence)
  {
    hide Derived;
    errors := [];
    var names := Names(gates.components);
    if |names| != |Elements(names)| { errors := errors + [DuplicateComponents]; }
    if Elements(names) != blessed { errors := errors + [NotBlessedCore]; }
    if Elements(gates.required) != gates.status.Keys { errors := errors + [RequiredMismatch]; }
    ghost var own := errors;
    for k := 0 to |gates.components|
      invariant errors == [] <==>
                own == [] &&
                forall c | c in gates.components[..k] :: Derived(c, gates.status) && !badEvidence(c.evidence)
    {
      assert gates.components[..k + 1] == gates.components[..k] + [gates.components[k]];
      var more := GateComponentErrors(gates.components[k], gates.status, badEvidence);
      errors := errors + more;
    }
    assert gates.components[..|gates.components|] == gates.components;
  }

  // ------------------------------------------------------------ release readiness

  /** `_release_gates_passed`. */
  predicate ReleaseGatesPassed(gates: Gates, blessed: set<string>)
    requires forall g | g in REQUIRED_V1_GATES :: g in gates.status
  {
    && (forall g | g in REQUIRED_V1_GATES :: gates.status[g] == "passed")
    && (forall c | c in gates.components && c.name in blessed :: c.status in {"passed", "not_required"})
  }

  /** The three release states and what a manifest must say in each. */
  predicate Ready(m: Manifest, blessed: set<string>)
    requires forall g | g in REQUIRED_V1_GATES :: g in m.gates.status
  {
    && m.version.Some? && m.version.value.release != []
    && (m.maturity == "supported" <==> m.productionReady)
    && (if m.productionReady then ReleaseGatesPassed(m.gates, blessed) && m.productionStatus == "passed"
        else !Pep440.AtLeastOne(m.version.value)
             && m.productionStatus ==
                if ReleaseGatesPassed(m.gates, blessed) then "required_before_release" else "blocked")
  }

  /** `_release_readiness_errors`. */
  method ReadinessErrors(m: Manifest, blessed: set<string>) returns (errors: seq<Error>)
    requires forall g | g in REQUIRED_V1_GATES :: g in m.gates.status
    requires m.version.Some? ==> m.version.value.release != []
    ensures errors == [] <==> Ready(m, blessed)
  {
    errors := [];
    var gatesPassed := ReleaseGatesPassed(m.gates, blessed);
    var expected := if !gatesPassed then "blocked"
                    else if m.productionReady then "passed" else "required_before_release";
    if m.productionStatus != expected { errors := errors + [ProductionStatusNotDerived]; }
    if m.productionReady && !gatesPassed { errors := errors + [ReadyWithoutGates]; }
    if (m.maturity == "supported") != m.productionReady { errors := errors + [MaturityMismatch]; }
    if m.version.None? {
      errors := errors + [NotAVersion];
    } else if Pep440.AtLeastOne(m.version.value) && !m.productionReady {
      errors := errors + [OneWithoutReady];
    }
  }

  // -------------------------------------------------------------- the release rule

  /** A component the checks accept is passed or not required exactly when all its gates are passed. */
  lemma ComponentPassedIff(c: Component, status: map<string, string>)
    requires Derived(c, status)
    ensures c.status in {"passed", "not_required"} <==>
            forall g | g in c.applicable :: g in status && status[g] == "passed"
  {
    if forall g | g in c.applicable :: g in status && status[g] == "passed" {
      assert BlockedBy(c, status) == {};
    }
    if c.status in {"passed", "not_required"} && c.applicable != [] {
      forall g | g in c.applicable ensures g in status && status[g] == "passed" {
        assert c.status == "passed" ==> BlockedBy(c, status) == {};
        assert g !in BlockedBy(c, status);
      }
    }
  }

  /** What an accepted component says: which of the three statuses it has, and that it lists exactly
      the applicable gates that are not passed. */
  lemma DerivedMeans(c: Component, status: map<string, string>)
    requires Derived(c, status)
    ensures c.status == "not_required" <==> c.applicable == []
    ensures c.status == "passed" <==> c.applicable != [] && forall g | g in c.applicable :: status[g] == "passed"
    ensures c.status == "blocked" <==> exists g | g in c.applicable :: status[g] != "passed"
    ensures forall g :: g in c.blockedBy <==> g in c.applicable && status[g] != "passed"
    ensures c.status != "blocked" ==> c.evidence != []
  {
    assert "passed" != "blocked" && "not_required" != "passed" && "not_required" != "blocked" by {
      assert |"passed"| == 6 && |"blocked"| == 7 && |"not_required"| == 12;
    }
    assert forall g :: g in c.blockedBy <==> g in Elements(c.blockedBy);
    ComponentPassedIff(c, status);
    if g :| g in c.applicable && status[g] != "passed" { assert g in BlockedBy(c, status); }
  }

  /** What an accepted gate table says: each blessed component is there once and no other is, and the
      required gates are the ones with a status. */
  lemma ConsistentMeans(gates: Gates, blessed: set<string>, badEvidence: seq<string> -> bool)
    requires GatesConsistent(gates, blessed, badEvidence)
    ensures forall i, j | 0 <= i < j < |gates.components| :: gates.components[i].name != gates.components[j].name
    ensures forall name :: name in blessed <==> exists c | c in gates.components :: c.name == name
    ensures forall g :: g in gates.required <==> g in gates.status
    ensures forall c | c in gates.components :: !badEvidence(c.evidence)
  {
    var names := Names(gates.components);
    CountDistinct(names);
    forall i, j | 0 <= i < j < |gates.components| ensures gates.components[i].name != gates.components[j].name {
      assert names[i] != names[j];
    }
    forall name ensures name in blessed <==> exists c | c in gates.components :: c.name == name {
      if name in blessed {
        assert name in Elements(names);
        var i :| 0 <= i < |names| && names[i] == name;
        assert gates.components[i].name == name;
      }
      if c :| c in gates.components && c.name == name {
        var i :| 0 <= i < |gates.components| && gates.components[i] == c;
        assert names[i] in Elements(names);
      }
    }
    forall g ensures g in gates.required <==> g in gates.status {
      assert g in gates.required <==> g in Elements(gates.required);
    }
  }

  /** What an accepted manifest says: production is passed exactly for a ready release, otherwise
      blocked exactly when one of the five gates or a blessed component is; a release that is not
      ready stays below 1.0.0 in the PEP 440 order. */
  lemma ReadyMeans(m: Manifest, blessed: set<string>)
    requires (forall g | g in REQUIRED_V1_GATES :: g in m.gates.status) && Ready(m, blessed)
    ensures var open :=
              || (exists g | g in ["security", "run_evidence", "maintenance", "upgrade_restore", "golden_path"] ::
                    m.gates.status[g] != "passed")
              || (exists c | c in m.gates.components ::
                    c.name in blessed && c.status != "passed" && c.status != "not_required");
            && (m.productionStatus == "blocked" <==> open)
            && (m.productionStatus == "passed" <==> m.productionReady)
            && (m.productionStatus == "required_before_release" <==> !open && !m.productionReady)
            && (m.productionReady <==> m.maturity == "supported")
            && (!m.productionReady ==> Pep440.Less(m.version.value, Pep440.ONE))
  {
    hide Pep440.AtLeastOne, Pep440.Less;
    assert |"passed"| == 6 && |"blocked"| == 7 && |"required_before_release"| == 23;
    Pep440.AtLeastOneIsNotLess(m.version.value);
  }

  /** ADR 0053: with no gate and no readiness error, a release not below 1.0.0 in the PEP 440
      order is production ready, every required gate is passed, and so is every gate that
      applies to a blessed-core component. The schema fixes the names in the gate table. */
  lemma OneNeedsEveryGate(m: Manifest, blessed: set<string>, badEvidence: seq<string> -> bool)
    requires m.gates.status.Keys == Elements(REQUIRED_V1_GATES)
    requires GatesConsistent(m.gates, blessed, badEvidence) && Ready(m, blessed)
    requires !Pep440.Less(m.version.value, Pep440.ONE)
    ensures m.productionReady && m.maturity == "supported" && m.productionStatus == "passed"
    ensures forall g | g in m.gates.required :: g in m.gates.status && m.gates.status[g] == "passed"
    ensures forall name | name in blessed :: exists c | c in m.gates.components :: c.name == name
    ensures forall c, g | c in m.gates.components && g in c.applicable ::
              g in m.gates.status && m.gates.status[g] == "passed"
    ensures forall c | c in m.gates.components :: c.evidence != [] && !badEvidence(c.evidence)
  {
    hide Derived;
    Pep440.AtLeastOneIsNotLess(m.version.value);
    var names := Names(m.gates.components);
    forall g | g in m.gates.required ensures g in m.gates.status && m.gates.status[g] == "passed" {
      assert g in Elements(m.gates.required) && g in Elements(REQUIRED_V1_GATES);
    }
    forall name | name in blessed ensures exists c | c in m.gates.components :: c.name == name {
      assert name in Elements(names);
      var i :| 0 <= i < |names| && names[i] == name;
      assert m.gates.components[i].name == name;
    }
    forall c | c in m.gates.components ensures c.evidence != [] {
      var i :| 0 <= i < |m.gates.components| && m.gates.components[i] == c;
      assert names[i] in Elements(names);
      DerivedMeans(c, m.gates.status);
      assert |"passed"| == 6 && |"blocked"| == 7 && |"not_required"| == 12;
    }
    forall c, g | c in m.gates.components && g in c.applicable
      ensures g in m.gates.status && m.gates.status[g] == "passed"
    {
      var i :| 0 <= i < |m.gates.components| && m.gates.components[i] == c;
      assert names[i] in Elements(names);
      ComponentPassedIff(c, m.gates.status);
    }
  }
}
