/** Gherkin steps: the accepted keyword lists, and the roles of the step definitions they use. */
module BddSteps {
  import opened GoStrings
  import opened Options

  datatype Keyword = Given | When | Then | And | But | OtherKeyword

  datatype Step = Step(keyword: Keyword, definitionID: string, expression: GoString, text: GoString)

  datatype StepError = TooFew | EmptyStep | Misplaced | InvalidKeyword

  predicate IsBlank(step: Step) {
    step.definitionID == "" && TrimSpace(step.expression) == "" && TrimSpace(step.text) == ""
  }

  // ---------------------------------------------------------------- the accepted lists

  /** Given (Given | And | But)* When (When | And | But)* Then (Then | And | But)*, with the When part
      beginning at `i` and the Then part at `j`. */
  ghost predicate Phased(steps: seq<Step>, i: int, j: int) {
    && 0 < i < j < |steps|
    && steps[0].keyword == Given && steps[i].keyword == When && steps[j].keyword == Then
    && forall k :: 0 <= k < |steps| ==>
         steps[k].keyword in {PhaseKeyword(if k < i then 1 else if k < j then 2 else 3), And, But}
  }

  function PhaseKeyword(phase: int): Keyword {
    if phase <= 1 then Given else if phase == 2 then When else Then
  }

  ghost predicate WellFormed(steps: seq<Step>) {
    && (forall k :: 0 <= k < |steps| ==> !IsBlank(steps[k]))
    && exists i, j :: Phased(steps, i, j)
  }

  /** The phase after one more keyword: 0 before any step, then 1, 2 and 3, or nothing when the
      keyword may not come here. */
  function NextPhase(phase: nat, k: Keyword): Option<nat> {
    match k
    case Given => if phase <= 1 then Some(1) else None
    case When => if 1 <= phase <= 2 then Some(2) else None
    case Then => if 2 <= phase then Some(3) else None
    case And => if phase == 0 then None else Some(phase)
    case But => if phase == 0 then None else Some(phase)
    case OtherKeyword => None
  }

  function PhaseAfter(steps: seq<Step>): Option<nat> {
    if steps == [] then Some(0)
    else
      var before := PhaseAfter(steps[..|steps| - 1]);
      if before.None? then None else NextPhase(before.value, steps[|steps| - 1].keyword)
  }

  method ValidateBDDSteps(steps: seq<Step>) returns (error: Option<StepError>)
    ensures error.None? <==> WellFormed(steps)
    ensures error.None? ==> PhaseAfter(steps) == Some(3)
  {
    hide IsBlank, Phased;
    TooFewStepsHaveNoPhases(steps);
    if |steps| < 3 {
      return Some(TooFew);
    }
    var phase: nat := 0;
    var hasGiven, hasWhen, hasThen := false, false, false;
    for index := 0 to |steps|
      invariant PhaseAfter(steps[..index]) == Some(phase) && phase <= 3
      invariant hasGiven == (phase >= 1) && hasWhen == (phase >= 2) && hasThen == (phase == 3)
      invariant forall k :: 0 <= k < index ==> !IsBlank(steps[k])
    {
      var step := steps[index];
      assert steps[..index + 1][..index] == steps[..index];
      if IsBlank(step) {
        return Some(EmptyStep);
      }
      if NextPhase(phase, step.keyword).None? {
        RejectedPrefix(steps, index + 1);
      }
      match step.keyword {
        case Given =>
          if phase > 1 {
            return Some(Misplaced);
          }
          phase, hasGiven := 1, true;
        case When =>
          if !hasGiven || phase > 2 {
            return Some(Misplaced);
          }
          phase, hasWhen := 2, true;
        case Then =>
          if !hasWhen {
            return Some(Misplaced);
          }
          phase, hasThen := 3, true;
        case And =>
          if phase == 0 {
            return Some(Misplaced);
          }
        case But =>
          if phase == 0 {
            return Some(Misplaced);
          }
        case OtherKeyword =>
          return Some(InvalidKeyword);
      }
    }
    assert steps[..|steps|] == steps;
    PhasedIffThirdPhase(steps);
    if !hasGiven || !hasWhen || !hasThen {
      return Some(TooFew);
    }
    return None;
  }

  // ---------------------------------------------------------------- phases and the grammar

  lemma TooFewStepsHaveNoPhases(steps: seq<Step>)
    ensures |steps| < 3 ==> forall i, j :: !Phased(steps, i, j)
  {
  }

  lemma {:induction false} PhaseIsSmall(steps: seq<Step>)
    ensures PhaseAfter(steps).Some? ==> PhaseAfter(steps).value <= 3
  {
    if steps != [] {
      PhaseIsSmall(steps[..|steps| - 1]);
    }
  }

  /** How far a keyword list has come: where its When and Then parts begin, if they have begun. */
  ghost predicate Reached(steps: seq<Step>, phase: nat, i: int, j: int) {
    && (phase == 0 ==> steps == [])
    && (phase >= 1 ==> steps != [] && steps[0].keyword == Given)
    && (if phase >= 2 then 0 < i < |steps| && steps[i].keyword == When else i == |steps|)
    && (if phase == 3 then i < j < |steps| && steps[j].keyword == Then else j == |steps|)
    && forall k :: 0 <= k < |steps| ==>
         steps[k].keyword in {PhaseKeyword(if k < i then 1 else if k < j then 2 else 3), And, But}
  }

  lemma {:induction false} PhaseIsReached(steps: seq<Step>) returns (i: int, j: int)
    requires PhaseAfter(steps).Some?
    ensures Reached(steps, PhaseAfter(steps).value, i, j)
  {
    if steps == [] {
      return 0, 0;
    }
    var n := |steps| - 1;
    i, j := PhaseIsReached(steps[..n]);
    PhaseIsSmall(steps);
    var before, phase := PhaseAfter(steps[..n]).value, PhaseAfter(steps).value;
    if phase == 1 {
      i := |steps|;
    } else if before == 1 {
      i := n;
    }
    if phase <= 2 {
      j := |steps|;
    } else if before == 2 {
      j := n;
    }
  }

  lemma {:induction false} PhasedPrefixReaches(steps: seq<Step>, i: int, j: int, n: nat)
    requires Phased(steps, i, j) && n <= |steps|
    ensures PhaseAfter(steps[..n]) == Some(if n == 0 then 0 else if n <= i then 1 else if n <= j then 2 else 3)
  {
    if n > 0 {
      PhasedPrefixReaches(steps, i, j, n - 1);
      assert steps[..n][..n - 1] == steps[..n - 1];
    }
  }

  lemma PhasedIffThirdPhase(steps: seq<Step>)
    ensures (exists i, j :: Phased(steps, i, j)) <==> PhaseAfter(steps) == Some(3)
  {
    if i, j :| Phased(steps, i, j) {
      PhasedPrefixReaches(steps, i, j, |steps|);
      assert steps[..|steps|] == steps;
    }
    if PhaseAfter(steps) == Some(3) {
      var i, j := PhaseIsReached(steps);
      assert Phased(steps, i, j);
    }
  }

  /** A list whose beginning is rejected is not well formed. */
  lemma RejectedPrefix(steps: seq<Step>, n: nat)
    requires n <= |steps| && PhaseAfter(steps[..n]).None?
    ensures forall i, j :: !Phased(steps, i, j)
  {
    forall i, j | Phased(steps, i, j)
      ensures false
    {
      PhasedPrefixReaches(steps, i, j, n);
    }
  }

  // ---------------------------------------------------------------- roles

  datatype Role = Context | Action | Outcome

  /** The backward scan for the nearest primary keyword. */
  function StepRole(steps: seq<Step>, position: int): Role
    requires position < |steps|
    decreases position + 1
  {
    if position < 0 then Context
    else
      match steps[position].keyword
      case Given => Context
      case When => Action
      case Then => Outcome
      case _ => StepRole(steps, position - 1)
  }

  function RoleOfPhase(phase: nat): Role {
    if phase <= 1 then Context else if phase == 2 then Action else Outcome
  }

  /** On accepted lists the backward scan finds the role of the phase the step is in. */
  lemma {:induction false} RoleIsPhase(steps: seq<Step>, position: nat)
    requires position < |steps| && PhaseAfter(steps[..position + 1]).Some?
    ensures StepRole(steps, position) == RoleOfPhase(PhaseAfter(steps[..position + 1]).value)
  {
    assert steps[..position + 1][..position] == steps[..position];
    PhaseIsSmall(steps[..position]);
    if position > 0 && steps[position].keyword in {And, But} {
      RoleIsPhase(steps, position - 1);
    }
  }

  lemma {:induction false} AcceptedPrefixes(steps: seq<Step>, n: nat)
    requires PhaseAfter(steps).Some? && n <= |steps|
    ensures PhaseAfter(steps[..n]).Some?
    decreases |steps|
  {
    if n < |steps| {
      assert steps[..|steps| - 1][..n] == steps[..n];
      AcceptedPrefixes(steps[..|steps| - 1], n);
    } else {
      assert steps[..n] == steps;
    }
  }

  // ---------------------------------------------------------------- step definitions

  datatype Definition = Definition(organization: string, expression: GoString, role: Role)

  datatype Stored = Stored(definitions: map<string, Definition>, used: seq<string>)

  /** The definition of this organization, role and expression, if there is one. */
  ghost predicate IsKnown(definitions: map<string, Definition>, d: Definition, id: string) {
    id in definitions && definitions[id] == d
  }

  /** One round of `insertRevision`'s loop over the steps: a named definition must belong to the
      organization and have the step's role; otherwise the definition of the expression is reused
      or inserted under the new id. */
  ghost function StoreStep(s: Stored, organization: string, steps: seq<Step>, position: nat, newID: string): Option<Stored>
    requires position < |steps|
  {
    var step, role := steps[position], StepRole(steps, position);
    var named := TrimSpace(step.definitionID);
    if named != "" then
      if named in s.definitions && s.definitions[named].organization == organization && s.definitions[named].role == role
      then Some(s.(used := s.used + [named])) else None
    else
      var written := TrimSpace(step.expression);
      var d := Definition(organization, if written != "" then written else TrimSpace(step.text), role);
      if id :| IsKnown(s.definitions, d, id) then Some(s.(used := s.used + [id]))
      else Some(Stored(s.definitions[newID := d], s.used + [newID]))
  }

  ghost function StoreSteps(definitions: map<string, Definition>, organization: string, steps: seq<Step>, n: nat, newIDs: seq<string>): Option<Stored>
    requires n <= |steps| <= |newIDs|
  {
    if n == 0 then Some(Stored(definitions, []))
    else
      var before := StoreSteps(definitions, organization, steps, n - 1, newIDs);
      if before.None? then None else StoreStep(before.value, organization, steps, n - 1, newIDs[n - 1])
  }

  /** The definition belongs to the organization and has the role of the phase step `k` is in. */
  ghost predicate HasPhaseRole(definitions: map<string, Definition>, organization: string, steps: seq<Step>, k: nat, id: string)
    requires k < |steps|
  {
    && PhaseAfter(steps[..k + 1]).Some? && id in definitions
    && definitions[id].organization == organization
    && definitions[id].role == RoleOfPhase(PhaseAfter(steps[..k + 1]).value)
  }

  ghost predicate Extends(definitions: map<string, Definition>, more: map<string, Definition>) {
    forall id :: id in definitions ==> id in more && more[id] == definitions[id]
  }

  lemma StepHasPhaseRole(s: Stored, organization: string, steps: seq<Step>, position: nat, newID: string)
    requires position < |steps| && PhaseAfter(steps).Some? && newID !in s.definitions
    requires StoreStep(s, organization, steps, position, newID).Some?
    ensures var s' := StoreStep(s, organization, steps, position, newID).value;
            && Extends(s.definitions, s'.definitions) && s'.definitions.Keys <= s.definitions.Keys + {newID}
            && |s'.used| == |s.used| + 1 && s'.used[..|s.used|] == s.used
            && HasPhaseRole(s'.definitions, organization, steps, position, s'.used[|s.used|])
  {
    hide TrimSpace, PhaseAfter, StepRole;
    AcceptedPrefixes(steps, position + 1);
    RoleIsPhase(steps, position);
  }

  /** Every stored step uses a definition of its organization that has the role of the step's phase,
      and no definition that was there before has changed. */
  lemma {:induction false} StoredStepsHaveTheirPhase(definitions: map<string, Definition>, organization: string, steps: seq<Step>, n: nat, newIDs: seq<string>)
    requires n <= |steps| <= |newIDs| && PhaseAfter(steps).Some?
    requires forall i :: 0 <= i < |newIDs| ==> newIDs[i] !in definitions
    requires forall i, j :: 0 <= i < j < |newIDs| ==> newIDs[i] != newIDs[j]
    requires StoreSteps(definitions, organization, steps, n, newIDs).Some?
    ensures var s := StoreSteps(definitions, organization, steps, n, newIDs).value;
            && |s.used| == n && Extends(definitions, s.definitions)
            && (forall id :: id in s.definitions && id !in definitions ==> id in newIDs[..n])
            && forall k :: 0 <= k < n ==> HasPhaseRole(s.definitions, organization, steps, k, s.used[k])
  {
    hide StoreStep, PhaseAfter;
    if n > 0 {
      StoredStepsHaveTheirPhase(definitions, organization, steps, n - 1, newIDs);
      var before := StoreSteps(definitions, organization, steps, n - 1, newIDs).value;
      StepHasPhaseRole(before, organization, steps, n - 1, newIDs[n - 1]);
      var s := StoreSteps(definitions, organization, steps, n, newIDs).value;
      forall k | 0 <= k < n - 1
        ensures HasPhaseRole(s.definitions, organization, steps, k, s.used[k])
      {
        assert s.used[k] == before.used[k];
      }
      assert newIDs[..n] == newIDs[..n - 1] + [newIDs[n - 1]];
    }
  }
}
