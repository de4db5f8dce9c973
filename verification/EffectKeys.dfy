/** The operation keys of session creations: which generation a key names. */
module EffectKeys {
  import opened Records
  import opened Identity

  const NEXT_ACTION := "create-session-generation"
  const INITIAL_ACTION := "create-initial-lineage-session"

  datatype LineageRole = WriterRole | ReviewerRole | AssuranceRole

  function RoleText(role: LineageRole): string {
    match role
    case WriterRole => "WRITER"
    case ReviewerRole => "REVIEWER"
    case AssuranceRole => "ASSURANCE"
  }

  /** A logical lineage. */
  datatype LineageName = LineageName(project: string, route: string, workstream: string, role: LineageRole)

  function WorkstreamIdOf(l: LineageName): string {
    "LINEAGE::" + l.workstream + "::" + RoleText(l.role)
  }

  /** A later generation: what names it, apart from what is asked of its session. */
  datatype NextGeneration = NextGeneration(
    lineage: LineageName, generation: nat, predecessor: string, source: string, branch: string)

  /** A first generation. */
  datatype FirstGeneration = FirstGeneration(
    lineage: LineageName, source: string, branch: string, transitionKey: TransitionKey)

  function DigitChar(n: nat): char
    requires n < 10
  {
    '0' + n as char
  }

  /** A number as the source writes it. */
  function Decimal(n: nat): string {
    if n < 10 then [DigitChar(n)] else Decimal(n / 10) + [DigitChar(n % 10)]
  }

  lemma {:induction false} DecimalIsInjective(m: nat, n: nat)
    requires Decimal(m) == Decimal(n)
    ensures m == n
  {
    var a, b := Decimal(m), Decimal(n);
    assert a[|a| - 1] == DigitChar(m % 10) && b[|b| - 1] == DigitChar(n % 10);
    DecimalLength(m);
    DecimalLength(n);
    if m >= 10 && n >= 10 {
      assert a[..|a| - 1] == Decimal(m / 10) && b[..|b| - 1] == Decimal(n / 10);
      DecimalIsInjective(m / 10, n / 10);
    }
  }

  lemma DecimalLength(n: nat)
    ensures |Decimal(n)| == 1 <==> n < 10
    ensures |Decimal(n)| >= 1
  {
  }

  function LaneOf(l: LineageName): LaneId {
    var id := LineageLaneId(l.project, l.route, l.workstream, RoleText(l.role));
    if id.Ok? then id.value else ""
  }

  function NextTarget(g: NextGeneration): Facts {
    map["provider" := "jules", "role" := RoleText(g.lineage.role), "generation" := Decimal(g.generation),
        "predecessor_session_fingerprint" := g.predecessor, "source_fingerprint" := g.source,
        "starting_branch" := g.branch]
  }

  function NextKey(g: NextGeneration): OperationKey {
    EffectOperationKey(EffectIdentity(LaneOf(g.lineage), g.lineage.project, g.lineage.route, WorkstreamIdOf(g.lineage),
                                      NEXT_ACTION, NextTarget(g)))
  }

  function FirstTarget(g: FirstGeneration): Facts {
    map["provider" := "jules", "role" := RoleText(g.lineage.role), "creation_kind" := "INITIAL_LOGICAL_LINEAGE",
        "generation" := "1", "source_fingerprint" := g.source, "starting_branch" := g.branch,
        "transition_key" := g.transitionKey]
  }

  function FirstKey(g: FirstGeneration): OperationKey {
    EffectOperationKey(EffectIdentity(LaneOf(g.lineage), g.lineage.project, g.lineage.route, WorkstreamIdOf(g.lineage),
                                      INITIAL_ACTION, FirstTarget(g)))
  }

  /** The key of some session creation. */
  predicate CreatesSession(key: OperationKey) {
    key.effect.action == NEXT_ACTION || key.effect.action == INITIAL_ACTION
  }

  // ---------------------------------------------------------------------------
  // What a key names
  // ---------------------------------------------------------------------------

  lemma RolesDiffer(a: LineageRole, b: LineageRole)
    requires RoleText(a) == RoleText(b)
    ensures a == b
  {
    assert |RoleText(WriterRole)| == 6 && |RoleText(ReviewerRole)| == 8 && |RoleText(AssuranceRole)| == 9;
  }

  lemma WorkstreamsDiffer(v: string, w: string, role: string)
    requires "LINEAGE::" + v + "::" + role == "LINEAGE::" + w + "::" + role
    ensures v == w
  {
    var s, t := "LINEAGE::" + v + "::" + role, "LINEAGE::" + w + "::" + role;
    assert s[9..|s| - 2 - |role|] == v && t[9..|t| - 2 - |role|] == w;
  }

  lemma NextTargetFields(g: NextGeneration)
    ensures
      var t := NextTarget(g);
      && "role" in t && t["role"] == RoleText(g.lineage.role)
      && "generation" in t && t["generation"] == Decimal(g.generation)
      && "predecessor_session_fingerprint" in t && t["predecessor_session_fingerprint"] == g.predecessor
      && "source_fingerprint" in t && t["source_fingerprint"] == g.source
      && "starting_branch" in t && t["starting_branch"] == g.branch
  {
    assert |"provider"| == 8 && |"role"| == 4 && |"generation"| == 10 && |"predecessor_session_fingerprint"| == 31
           && |"source_fingerprint"| == 18 && |"starting_branch"| == 15;
  }

  /** A key names exactly one next generation: lane, role, generation, predecessor, source and branch. */
  lemma NextKeyNamesGeneration(a: NextGeneration, b: NextGeneration)
    ensures NextKey(a) == NextKey(b) <==> a == b
  {
    if NextKey(a) == NextKey(b) {
      NextTargetFields(a);
      NextTargetFields(b);
      assert NextTarget(a) == NextTarget(b);
      RolesDiffer(a.lineage.role, b.lineage.role);
      DecimalIsInjective(a.generation, b.generation);
      WorkstreamsDiffer(a.lineage.workstream, b.lineage.workstream, RoleText(a.lineage.role));
    }
  }

  lemma FirstTargetFields(g: FirstGeneration)
    ensures
      var t := FirstTarget(g);
      && "role" in t && t["role"] == RoleText(g.lineage.role)
      && "source_fingerprint" in t && t["source_fingerprint"] == g.source
      && "starting_branch" in t && t["starting_branch"] == g.branch
      && "transition_key" in t && t["transition_key"] == g.transitionKey
  {
    assert |"provider"| == 8 && |"role"| == 4 && |"creation_kind"| == 13 && |"generation"| == 10
           && |"source_fingerprint"| == 18 && |"starting_branch"| == 15 && |"transition_key"| == 14;
  }

  /** A key names exactly one first generation, and never a next one. */
  lemma FirstKeyNamesGeneration(a: FirstGeneration, b: FirstGeneration, c: NextGeneration)
    ensures FirstKey(a) == FirstKey(b) <==> a == b
    ensures FirstKey(a) != NextKey(c)
  {
    assert |NEXT_ACTION| != |INITIAL_ACTION|;
    if FirstKey(a) == FirstKey(b) {
      FirstTargetFields(a);
      FirstTargetFields(b);
      assert FirstTarget(a) == FirstTarget(b);
      RolesDiffer(a.lineage.role, b.lineage.role);
      WorkstreamsDiffer(a.lineage.workstream, b.lineage.workstream, RoleText(a.lineage.role));
    }
  }
}
