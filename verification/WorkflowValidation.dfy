/** The two loops of static validation that make step ids and output keys unique. */
module WorkflowValidation {
  import opened Wrappers

  const MAX_STEP_ID_LEN := 64
  const MAX_AGENT_ID_LEN := 64
  const MAX_STEP_TASK_LEN := 10_000
  const MAX_OUTPUT_KEY_LEN := 64

  datatype Step = Step(id: string, agentId: string, task: string, outputKey: Option<string>)

  datatype Error =
    | StepIdTooLong(id: string)
    | AgentIdTooLong(step: string)
    | TaskTooLong(step: string)
    | DuplicateStep(id: string)
    | EmptyOutputKey(step: string)
    | OutputKeyTooLong(step: string)
    | DuplicateOutputKey(key: string)

  /** The length in bytes of the UTF-8 form. */
  function Utf8Len(s: string): nat {
    if s == "" then 0
    else
      var c := s[|s| - 1] as int;
      Utf8Len(s[..|s| - 1]) + (if c < 0x80 then 1 else if c < 0x800 then 2 else if c < 0x1_0000 then 3 else 4)
  }

  predicate LengthsFit(s: Step) {
    Utf8Len(s.id) <= MAX_STEP_ID_LEN && Utf8Len(s.agentId) <= MAX_AGENT_ID_LEN && Utf8Len(s.task) <= MAX_STEP_TASK_LEN
  }

  predicate KeyFits(s: Step) {
    s.outputKey.Some? ==> s.outputKey.value != "" && Utf8Len(s.outputKey.value) <= MAX_OUTPUT_KEY_LEN
  }

  ghost predicate DistinctIds(steps: seq<Step>) {
    forall i, j | 0 <= i < j < |steps| :: steps[i].id != steps[j].id
  }

  ghost predicate DistinctKeys(steps: seq<Step>) {
    forall i, j | 0 <= i < j < |steps| :: steps[i].outputKey.Some? ==> steps[i].outputKey != steps[j].outputKey
  }

  method CheckStepIds(steps: seq<Step>) returns (error: Option<Error>)
    ensures error.None? <==> DistinctIds(steps) && forall i | 0 <= i < |steps| :: LengthsFit(steps[i])
    ensures forall id :: error == Some(DuplicateStep(id)) ==>
                           exists i, j | 0 <= i < j < |steps| :: steps[i].id == id == steps[j].id
  {
    var seen: set<string> := {};
    for k := 0 to |steps|
      invariant forall i | 0 <= i < k :: steps[i].id in seen && LengthsFit(steps[i])
      invariant forall id <- seen :: exists i | 0 <= i < k :: steps[i].id == id
      invariant DistinctIds(steps[..k])
    {
      var step := steps[k];
      if Utf8Len(step.id) > MAX_STEP_ID_LEN {
        return Some(StepIdTooLong(step.id));
      }
      if Utf8Len(step.agentId) > MAX_AGENT_ID_LEN {
        return Some(AgentIdTooLong(step.id));
      }
      if Utf8Len(step.task) > MAX_STEP_TASK_LEN {
        return Some(TaskTooLong(step.id));
      }
      if step.id in seen {
        return Some(DuplicateStep(step.id));
      }
      seen := seen + {step.id};
    }
    return None;
  }

  method CheckOutputKeys(steps: seq<Step>) returns (error: Option<Error>)
    ensures error.None? <==> DistinctKeys(steps) && forall i | 0 <= i < |steps| :: KeyFits(steps[i])
    ensures forall key :: error == Some(DuplicateOutputKey(key)) ==>
                            exists i, j | 0 <= i < j < |steps| :: steps[i].outputKey == Some(key) == steps[j].outputKey
  {
    var seen: set<string> := {};
    for k := 0 to |steps|
      invariant forall i | 0 <= i < k :: KeyFits(steps[i]) && (steps[i].outputKey.Some? ==> steps[i].outputKey.value in seen)
      invariant forall key <- seen :: exists i | 0 <= i < k :: steps[i].outputKey == Some(key)
      invariant DistinctKeys(steps[..k])
    {
      var step := steps[k];
      if step.outputKey.Some? {
        var key := step.outputKey.value;
        if key == "" {
          return Some(EmptyOutputKey(step.id));
        }
        if Utf8Len(key) > MAX_OUTPUT_KEY_LEN {
          return Some(OutputKeyTooLong(step.id));
        }
        if key in seen {
          return Some(DuplicateOutputKey(key));
        }
        seen := seen + {key};
      }
    }
    return None;
  }

  function CountFrom(s: string, limit: int): nat {
    if s == "" then 0 else CountFrom(s[..|s| - 1], limit) + (if s[|s| - 1] as int >= limit then 1 else 0)
  }

  /** One byte for each character, and one more from each of the three limits of UTF-8 on. */
  lemma {:induction false} Utf8LenIs(s: string)
    ensures Utf8Len(s) == |s| + CountFrom(s, 0x80) + CountFrom(s, 0x800) + CountFrom(s, 0x1_0000)
  {
    if s != "" {
      Utf8LenIs(s[..|s| - 1]);
    }
  }
}
