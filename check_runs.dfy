/** What a check run shows the reporter: one `add_result(hostname, check,
    compliant, detail)` call per device, in list order, until a device's
    evaluation raises, or `add_result` itself raises for it, and the run stops. Each check module gives its per-device
    evaluation; the run over the device list is defined here once. */
module CheckRuns {
  import opened Wrappers
  import opened JsonValues
  import opened Exceptions
  import opened DomainModels
  import opened Builtins

  /** The arguments of one `audit_reporter.add_result` call. */
  datatype ResultCall = ResultCall(hostname: Json, check: string, compliant: bool, detail: string)

  /** The calls a run completed, and the exception that ended it early, if any. */
  datatype Trace = Trace(calls: seq<ResultCall>, raised: Option<Exception>)

  /** Calls already made, followed by what the rest of the run does. */
  function Prepend(calls: seq<ResultCall>, rest: Trace): Trace
  {
    Trace(calls + rest.calls, rest.raised)
  }

  /** `for device in devices: ... audit_reporter.add_result(...)`, where
      `evaluate` is the loop body for one device up to the `add_result` call.
      That call raises TypeError for a hostname that cannot be a dict key
      (`device not in self._device_rows`, audit_reporter.py:36), before it
      records anything, and the exception ends the run. */
  function RunTrace(devices: seq<Device>, evaluate: Device -> Outcome<ResultCall>): Trace
  {
    if |devices| == 0 then Trace([], None)
    else
      match evaluate(devices[0])
      case Raise(e) => Trace([], Some(e))
      case Ok(call) =>
        if !Hashable(call.hostname) then Trace([], Some(TypeError))
        else Prepend([call], RunTrace(devices[1..], evaluate))
  }

  /** One more loop iteration: if the calls so far followed by the run from `i`
      is the whole run, so are the calls with device `i`'s added followed by the
      run from `i + 1`. */
  lemma RunTraceStep(devices: seq<Device>, i: nat, evaluate: Device -> Outcome<ResultCall>, calls: seq<ResultCall>)
    requires i < |devices| && evaluate(devices[i]).Ok? && Hashable(evaluate(devices[i]).value.hostname)
    requires RunTrace(devices, evaluate) == Prepend(calls, RunTrace(devices[i..], evaluate))
    ensures RunTrace(devices, evaluate) == Prepend(calls + [evaluate(devices[i]).value], RunTrace(devices[i + 1..], evaluate))
  {
    assert devices[i..][1..] == devices[i + 1..];
  }

  /** A device that raises ends the run there. */
  lemma RunTraceStop(devices: seq<Device>, i: nat, evaluate: Device -> Outcome<ResultCall>, calls: seq<ResultCall>)
    requires i < |devices| && evaluate(devices[i]).Raise?
    requires RunTrace(devices, evaluate) == Prepend(calls, RunTrace(devices[i..], evaluate))
    ensures RunTrace(devices, evaluate) == Trace(calls, Some(evaluate(devices[i]).exc))
  {
    assert calls + [] == calls;
  }

  /** A call `add_result` refuses for its hostname ends the run there. */
  lemma RunTraceRefused(devices: seq<Device>, i: nat, evaluate: Device -> Outcome<ResultCall>, calls: seq<ResultCall>)
    requires i < |devices| && evaluate(devices[i]).Ok? && !Hashable(evaluate(devices[i]).value.hostname)
    requires RunTrace(devices, evaluate) == Prepend(calls, RunTrace(devices[i..], evaluate))
    ensures RunTrace(devices, evaluate) == Trace(calls, Some(TypeError))
  {
    assert calls + [] == calls;
  }

  /** Past the last device nothing more is reported. */
  lemma RunTraceEnd(devices: seq<Device>, evaluate: Device -> Outcome<ResultCall>, calls: seq<ResultCall>)
    requires RunTrace(devices, evaluate) == Prepend(calls, RunTrace(devices[|devices|..], evaluate))
    ensures RunTrace(devices, evaluate) == Trace(calls, None)
  {
    assert calls + [] == calls;
  }

  /** Before the first device, the whole run is still to come. */
  lemma RunTraceStart(devices: seq<Device>, evaluate: Device -> Outcome<ResultCall>)
    ensures RunTrace(devices, evaluate) == Prepend([], RunTrace(devices[0..], evaluate))
  {
    assert devices[0..] == devices;
  }

  /** A run makes one call per device, in list order, each naming its device and
      the check, each with a hashable hostname; it makes a call for every device
      unless one raised, and then the calls stop at the first device whose
      evaluation raised or whose hostname `add_result` refused. */
  lemma {:induction false} OneCallPerDevice(devices: seq<Device>, evaluate: Device -> Outcome<ResultCall>, check: string)
    requires forall d :: evaluate(d).Ok? ==> evaluate(d).value.hostname == d.hostname && evaluate(d).value.check == check
    ensures var t := RunTrace(devices, evaluate);
      && |t.calls| <= |devices|
      && (forall k :: 0 <= k < |t.calls| ==>
            && evaluate(devices[k]) == Ok(t.calls[k]) && t.calls[k].hostname == devices[k].hostname
            && t.calls[k].check == check && Hashable(devices[k].hostname))
      && (t.raised.None? <==> |t.calls| == |devices|)
      && (t.raised.Some? ==>
            || evaluate(devices[|t.calls|]) == Raise(t.raised.value)
            || (evaluate(devices[|t.calls|]).Ok? && !Hashable(devices[|t.calls|].hostname) && t.raised.value == TypeError))
  {
    if |devices| > 0 && evaluate(devices[0]).Ok? && Hashable(devices[0].hostname) {
      OneCallPerDevice(devices[1..], evaluate, check);
      var rest := RunTrace(devices[1..], evaluate);
      assert RunTrace(devices, evaluate).calls == [evaluate(devices[0]).value] + rest.calls;
      forall k | 1 <= k < |rest.calls| + 1
        ensures evaluate(devices[k]) == Ok(RunTrace(devices, evaluate).calls[k])
      {
        assert devices[1..][k - 1] == devices[k];
      }
      if rest.raised.Some? {
        assert devices[1..][|rest.calls|] == devices[|rest.calls| + 1];
      }
    }
  }

  /** Evaluations that always give the same answer give the same run: running
      a check twice over the same devices reports the same results. */
  lemma {:induction false} RunTraceDependsOnResults(devices: seq<Device>, e1: Device -> Outcome<ResultCall>, e2: Device -> Outcome<ResultCall>)
    requires forall k :: 0 <= k < |devices| ==> e1(devices[k]) == e2(devices[k])
    ensures RunTrace(devices, e1) == RunTrace(devices, e2)
  {
    if |devices| > 0 {
      assert forall k :: 0 <= k < |devices| - 1 ==> devices[1..][k] == devices[k + 1];
      RunTraceDependsOnResults(devices[1..], e1, e2);
    }
  }
}
