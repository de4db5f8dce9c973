/** The reversible lane id: one scalar for a lane's project, route and workstream. */
module Identity {
  import opened Wrappers
  import opened Text
  import opened Percent
  import opened Records

  const LANE_PREFIX := "ues-lane:v1"
  const SEPARATOR: char := '|'

  datatype LaneTuple = LaneTuple(project: string, route: string, workstream: string)

  datatype IdentityError = ComponentRequired | NotALaneId | EmptyComponent | NotCanonical | UnsupportedRole

  /** What is left of a component after stripping. */
  function Component(value: Option<string>): Result<string, IdentityError> {
    if value.None? || Strip(value.value) == "" then Err(ComponentRequired) else Ok(Strip(value.value))
  }

  function Encoded(k: LaneTuple): string {
    LANE_PREFIX + [SEPARATOR] + (Quote(k.project) + [SEPARATOR] + (Quote(k.route) + [SEPARATOR] + Quote(k.workstream)))
  }

  function CanonicalLaneId(project: Option<string>, route: Option<string>, workstream: Option<string>): Result<string, IdentityError> {
    match (Component(project), Component(route), Component(workstream))
    case (Ok(p), Ok(r), Ok(w)) => Ok(Encoded(LaneTuple(p, r, w)))
    case _ => Err(ComponentRequired)
  }

  function LaneIdOf(k: LaneTuple): Result<string, IdentityError> {
    CanonicalLaneId(Some(k.project), Some(k.route), Some(k.workstream))
  }

  function Split(s: string): (r: seq<string>)
    ensures r != []
  {
    if s == "" then [""]
    else
      var rest := Split(s[1..]);
      if s[0] == SEPARATOR then [""] + rest else [[s[0]] + rest[0]] + rest[1..]
  }

  function ParseLaneId(value: string): Result<LaneTuple, IdentityError> {
    var parts := Split(value);
    if |parts| != 4 || parts[0] != LANE_PREFIX then Err(NotALaneId)
    else
      var k := LaneTuple(Unquote(parts[1]), Unquote(parts[2]), Unquote(parts[3]));
      if Strip(k.project) == "" || Strip(k.route) == "" || Strip(k.workstream) == "" then Err(EmptyComponent)
      else if LaneIdOf(k) != Ok(value) then Err(NotCanonical)
      else Ok(k)
  }

  // ---------------------------------------------------------------------------
  // Splitting
  // ---------------------------------------------------------------------------

  lemma {:induction false} SplitAtSeparator(part: string, rest: string)
    requires SEPARATOR !in part
    ensures Split(part + [SEPARATOR] + rest) == [part] + Split(rest)
  {
    var s := part + [SEPARATOR] + rest;
    if part == "" {
      assert s[1..] == rest;
    } else {
      assert s[1..] == part[1..] + [SEPARATOR] + rest;
      SplitAtSeparator(part[1..], rest);
      assert part == [part[0]] + part[1..];
    }
  }

  lemma {:induction false} SplitWhole(part: string)
    requires SEPARATOR !in part
    ensures Split(part) == [part]
  {
    if part != "" {
      SplitWhole(part[1..]);
      assert part == [part[0]] + part[1..];
    }
  }

  lemma QuotedHasNoSeparator(s: string)
    ensures SEPARATOR !in Quote(s)
  {
    QuoteIsSafe(s);
  }

  lemma EncodedSplits(k: LaneTuple)
    ensures Split(Encoded(k)) == [LANE_PREFIX, Quote(k.project), Quote(k.route), Quote(k.workstream)]
  {
    QuotedHasNoSeparator(k.project);
    QuotedHasNoSeparator(k.route);
    QuotedHasNoSeparator(k.workstream);
    SplitWhole(Quote(k.workstream));
    SplitAtSeparator(Quote(k.route), Quote(k.workstream));
    SplitAtSeparator(Quote(k.project), Quote(k.route) + [SEPARATOR] + Quote(k.workstream));
    SplitAtSeparator(LANE_PREFIX, Quote(k.project) + [SEPARATOR] + (Quote(k.route) + [SEPARATOR] + Quote(k.workstream)));
  }

  // ---------------------------------------------------------------------------
  // Round trips
  // ---------------------------------------------------------------------------

  /** Components as a canonical id holds them. */
  predicate Canonical(k: LaneTuple) {
    && k.project != "" && k.route != "" && k.workstream != ""
    && Trimmed(k.project) && Trimmed(k.route) && Trimmed(k.workstream)
  }

  lemma LaneIdOfCanonical(k: LaneTuple)
    requires Canonical(k)
    ensures LaneIdOf(k) == Ok(Encoded(k))
  {
    StripTrims(k.project);
    StripTrims(k.route);
    StripTrims(k.workstream);
  }

  /** Parsing undoes printing on trimmed, non-empty components. */
  lemma ParseInvertsPrint(k: LaneTuple)
    requires Canonical(k)
    ensures LaneIdOf(k).Ok? && ParseLaneId(LaneIdOf(k).value) == Ok(k)
  {
    LaneIdOfCanonical(k);
    EncodedSplits(k);
    UnquoteInvertsQuote(k.project);
    UnquoteInvertsQuote(k.route);
    UnquoteInvertsQuote(k.workstream);
    StripTrims(k.project);
    StripTrims(k.route);
    StripTrims(k.workstream);
  }

  function Stripped(k: LaneTuple): LaneTuple {
    LaneTuple(Strip(k.project), Strip(k.route), Strip(k.workstream))
  }

  lemma StrippedIsCanonical(k: LaneTuple)
    requires LaneIdOf(k).Ok?
    ensures Canonical(Stripped(k)) && LaneIdOf(k) == Ok(Encoded(Stripped(k)))
  {
    StripTrims(k.project);
    StripTrims(k.route);
    StripTrims(k.workstream);
  }

  /** Exactly the printed forms of trimmed, non-empty components are accepted, and as those. */
  lemma ParseAcceptsExactlyCanonical(value: string, k: LaneTuple)
    ensures ParseLaneId(value) == Ok(k) <==> Canonical(k) && LaneIdOf(k) == Ok(value)
  {
    if Canonical(k) && LaneIdOf(k) == Ok(value) {
      ParseInvertsPrint(k);
    }
    if ParseLaneId(value) == Ok(k) {
      var c := Stripped(k);
      StrippedIsCanonical(k);
      EncodedSplits(c);
      UnquoteInvertsQuote(c.project);
      UnquoteInvertsQuote(c.route);
      UnquoteInvertsQuote(c.workstream);
      assert k == c;
    }
  }

  /** Two tuples have the same id exactly when their stripped components agree. */
  lemma LaneIdsAreInjective(a: LaneTuple, b: LaneTuple)
    requires LaneIdOf(a).Ok? && LaneIdOf(b).Ok?
    ensures LaneIdOf(a) == LaneIdOf(b) <==> Stripped(a) == Stripped(b)
  {
    StrippedIsCanonical(a);
    StrippedIsCanonical(b);
    if Encoded(Stripped(a)) == Encoded(Stripped(b)) {
      LaneIdOfCanonical(Stripped(a));
      LaneIdOfCanonical(Stripped(b));
      ParseInvertsPrint(Stripped(a));
      ParseInvertsPrint(Stripped(b));
    }
  }

  // ---------------------------------------------------------------------------
  // Lineage lanes
  // ---------------------------------------------------------------------------

  function NormalizeRole(role: string): Result<string, IdentityError> {
    var name := Upper(Strip(role));
    if name == "WRITER" || name == "REVIEWER" || name == "ASSURANCE" then Ok(name) else Err(UnsupportedRole)
  }

  function LineageWorkstream(workstream: string, role: string): string {
    "LINEAGE::" + Strip(workstream) + "::" + role
  }

  function LineageLaneId(project: string, route: string, workstream: string, role: string): Result<string, IdentityError> {
    match NormalizeRole(role)
    case Err(e) => Err(e)
    case Ok(name) => LaneIdOf(LaneTuple(project, route, LineageWorkstream(workstream, name)))
  }

  lemma LineageWorkstreamIsTrimmed(workstream: string, role: string)
    requires NormalizeRole(role).Ok?
    ensures Strip(LineageWorkstream(workstream, NormalizeRole(role).value)) == LineageWorkstream(workstream, NormalizeRole(role).value)
  {
    var name := NormalizeRole(role).value;
    var s := LineageWorkstream(workstream, name);
    assert s[0] == 'L' && s[|s| - 1] == name[|name| - 1];
    StripTrims(s);
  }

  lemma LineageWorkstreamsDiffer(v: string, a: string, w: string, b: string)
    requires a in ["WRITER", "REVIEWER", "ASSURANCE"] && b in ["WRITER", "REVIEWER", "ASSURANCE"]
    requires LineageWorkstream(v, a) == LineageWorkstream(w, b)
    ensures Strip(v) == Strip(w) && a == b
  {
    var s, t := LineageWorkstream(v, a), LineageWorkstream(w, b);
    assert s[|s| - 1] == a[|a| - 1] && t[|t| - 1] == b[|b| - 1];
    assert s[|s| - 6] == a[|a| - 6] && t[|t| - 6] == b[|b| - 6];
    assert a == b;
    assert s[9..|s| - |a| - 2] == Strip(v) && t[9..|t| - |b| - 2] == Strip(w);
  }

  /** Lineage lane ids tell projects, routes, workstreams and roles apart, and nothing else. */
  lemma LineageLaneIdsAreInjective(a: LaneTuple, roleA: string, b: LaneTuple, roleB: string)
    requires LineageLaneId(a.project, a.route, a.workstream, roleA).Ok?
    requires LineageLaneId(b.project, b.route, b.workstream, roleB).Ok?
    ensures LineageLaneId(a.project, a.route, a.workstream, roleA) == LineageLaneId(b.project, b.route, b.workstream, roleB)
       <==> Stripped(a) == Stripped(b) && NormalizeRole(roleA) == NormalizeRole(roleB)
  {
    var nameA, nameB := NormalizeRole(roleA).value, NormalizeRole(roleB).value;
    var laneA := LaneTuple(a.project, a.route, LineageWorkstream(a.workstream, nameA));
    var laneB := LaneTuple(b.project, b.route, LineageWorkstream(b.workstream, nameB));
    LaneIdsAreInjective(laneA, laneB);
    LineageWorkstreamIsTrimmed(a.workstream, roleA);
    LineageWorkstreamIsTrimmed(b.workstream, roleB);
    if LineageWorkstream(a.workstream, nameA) == LineageWorkstream(b.workstream, nameB) {
      LineageWorkstreamsDiffer(a.workstream, nameA, b.workstream, nameB);
    }
  }

  lemma CounterIsNoLineageWorkstream(workstream: string, role: string)
    requires NormalizeRole(role).Ok?
    ensures Strip(BUDGET_WORKSTREAM) != Strip(LineageWorkstream(workstream, NormalizeRole(role).value))
  {
    LineageWorkstreamIsTrimmed(workstream, role);
    assert |BUDGET_WORKSTREAM| == 22 && BUDGET_WORKSTREAM[0] == 'T' && BUDGET_WORKSTREAM[21] == 'G';
    StripTrims(BUDGET_WORKSTREAM);
    assert LineageWorkstream(workstream, NormalizeRole(role).value)[0] == 'L';
  }

  /** The lane that counts confirmed generations is never the lane of a lineage, so observations of
      lineages do not reach it. */
  lemma CounterLaneIsNoLineage(project: string, route: string, lane: LaneTuple, role: string)
    requires LaneIdOf(LaneTuple(project, route, BUDGET_WORKSTREAM)).Ok?
    requires LineageLaneId(lane.project, lane.route, lane.workstream, role).Ok?
    ensures LaneIdOf(LaneTuple(project, route, BUDGET_WORKSTREAM)) != LineageLaneId(lane.project, lane.route, lane.workstream, role)
  {
    var workstream := LineageWorkstream(lane.workstream, NormalizeRole(role).value);
    LaneIdsAreInjective(LaneTuple(project, route, BUDGET_WORKSTREAM), LaneTuple(lane.project, lane.route, workstream));
    CounterIsNoLineageWorkstream(lane.workstream, role);
  }
}
