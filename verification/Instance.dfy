/** The workflow state as the source keeps it: one object whose fields `Apply` updates. */
module Instance {
  import opened Wrappers
  import opened Json
  import opened Workflow

  class InstanceState {
    var id: string
    var workflowId: string
    var status: Status
    var context: Value
    var stepResults: map<string, StepResult>
    var completedSteps: set<string>
    var runningSteps: set<string>
    var signalBlockedSteps: set<string>
    var scheduledSteps: set<string>
    var pendingTimers: map<string, Time>

    constructor (id: string)
      ensures View() == Blank(id)
    {
      this.id, workflowId, status, context := id, "", Pending, Null;
      stepResults, pendingTimers := map[], map[];
      completedSteps, runningSteps, signalBlockedSteps, scheduledSteps := {}, {}, {}, {};
    }

    function View(): State
      reads this
    {
      State(id, workflowId, status, context, stepResults, completedSteps, runningSteps,
            signalBlockedSteps, scheduledSteps, pendingTimers)
    }

    /** Applies one event; `panicked` is the panic on a "signals" entry that is no object. */
    method Apply(e: Event, now: Time) returns (panicked: bool)
      modifies this
      ensures panicked <==> Workflow.Apply(old(View()), e, now).None?
      ensures !panicked ==> Workflow.Apply(old(View()), e, now) == Some(View())
    {
      panicked := false;
      match e {
        case InstanceCreated(workflowId, inputs) =>
          this.workflowId := workflowId;
          context := inputs;
          status := Pending;
        case InstanceStarted =>
          status := Running;
        case StepScheduled(step, _) =>
          scheduledSteps := scheduledSteps + {step};
        case StepStarted(_, _) | StepCompleted(_, _, _, _, _) | StepFailed(_, _, _, _) =>
          ApplyToResult(e, now);
        case SignalWaitStarted(step, name) =>
          signalBlockedSteps := signalBlockedSteps + {step};
          status := WaitingForSignal(name);
        case BreakpointHit(step, _, _) =>
          scheduledSteps := scheduledSteps - {step};
          signalBlockedSteps := signalBlockedSteps + {step};
          status := WaitingForSignal("__breakpoint__" + step);
        case SignalReceived(_, _, _, _, _) =>
          panicked := ReceiveSignal(e);
        case StepRetryScheduled(step, _, _) =>
          scheduledSteps := scheduledSteps + {step};
        case TimerFired(timer) =>
          pendingTimers := pendingTimers - {timer};
          var step := RetryStep(timer);
          if step.Some? {
            scheduledSteps := scheduledSteps - {step.value};
          }
        case CancelRequested(_) =>
          status := Failed;
        case WorkflowCompleted(_, _) =>
          status := Completed;
        case WorkflowFailed(_, _) =>
          status := Failed;
        case _ =>
      }
    }

    /** The three events that touch the result of a step. */
    method ApplyToResult(e: Event, now: Time)
      requires e.StepStarted? || e.StepCompleted? || e.StepFailed?
      modifies this
      ensures Workflow.Apply(old(View()), e, now) == Some(View())
    {
      match e {
        case StepStarted(step, at) =>
          scheduledSteps := scheduledSteps - {step};
          runningSteps := runningSteps + {step};
          if step in stepResults {
            stepResults := stepResults[step := stepResults[step].(startedAt := Some(at))];
          } else {
            stepResults := stepResults[step := StepResult(StepRunning, None, None, Some(at), None, 0)];
          }
        case StepCompleted(step, output, attempt, key, at) =>
          runningSteps := runningSteps - {step};
          completedSteps := completedSteps + {step};
          if key.Some? && context.Obj? {
            context := Obj(context.fields[key.value := output]);
          }
          var startedAt := if step in stepResults then stepResults[step].startedAt else None;
          stepResults := stepResults[step := StepResult(StepDone, Some(output), None, startedAt, Some(at), attempt)];
        case StepFailed(step, error, attempt, willRetry) =>
          runningSteps := runningSteps - {step};
          if !willRetry {
            status := Failed;
          }
          var startedAt := if step in stepResults then stepResults[step].startedAt else None;
          stepResults := stepResults[step := StepResult(StepError, None, Some(error), startedAt, Some(now), attempt)];
      }
    }

    method ReceiveSignal(e: Event) returns (panicked: bool)
      requires e.SignalReceived?
      modifies this
      ensures panicked <==> ApplySignal(old(View()), e).None?
      ensures !panicked ==> ApplySignal(old(View()), e) == Some(View())
    {
      panicked := false;
      if e.action == Some(Reject) {
        RejectBlocked(RejectReason(e.payload, e.reviewer));
      } else if status == WaitingForSignal(e.signalName) {
        panicked := AcceptSignal(e.signalName, e.payload);
      }
    }

    /** Fails the instance and, one by one, the results of the blocked steps. */
    method RejectBlocked(reason: string)
      modifies this
      ensures View() == old(View()).(blocked := {}, status := Failed,
                                     results := RejectAll(old(stepResults), old(signalBlockedSteps), reason))
    {
      var todo := signalBlockedSteps;
      signalBlockedSteps := {};
      status := Failed;
      while todo != {}
        invariant todo <= old(signalBlockedSteps)
        invariant View() == old(View()).(blocked := {}, status := Failed, results := stepResults)
        invariant stepResults == RejectAll(old(stepResults), old(signalBlockedSteps) - todo, reason)
        decreases |todo|
      {
        var step :| step in todo;
        todo := todo - {step};
        if step in stepResults {
          stepResults := stepResults[step := stepResults[step].(status := StepError, error := Some(reason))];
        }
      }
      assert old(signalBlockedSteps) - {} == old(signalBlockedSteps);
    }

    /** Resumes the instance and files the payload under the context's "signals". */
    method AcceptSignal(name: string, payload: Value) returns (panicked: bool)
      modifies this
      ensures panicked <==> FileSignal(old(context), name, payload).None?
      ensures !panicked ==>
                View() == old(View()).(blocked := {}, status := Running,
                                       context := FileSignal(old(context), name, payload).value)
    {
      signalBlockedSteps := {};
      status := Running;
      panicked := false;
      if context.Obj? {
        var fields := context.fields;
        if "signals" !in fields {
          fields := fields["signals" := Obj(map[])];
        }
        match fields["signals"] {
          case Obj(signals) =>
            context := Obj(fields["signals" := Obj(signals[name := payload])]);
            assert context.fields == old(context).fields["signals" := Obj(signals[name := payload])];
            assert "signals" !in old(context).fields ==> signals[name := payload] == map[name := payload];
          case _ =>
            panicked := true;
        }
      }
    }
  }
}
