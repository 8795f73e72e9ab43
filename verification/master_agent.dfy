/**
  `MasterAgent`: one control tick of `monitor_system` and the self-healing
  process it starts. The agent's state is its metrics, the targets it has
  asked the generator for (in call order) and the hub. The metrics are
  never written by any of these operations.
 */
module MasterAgent {
  import opened Wrappers
  import opened Sequences
  import opened Metrics
  import opened IntegrationHub
  import opened ModuleGenerator

  /** Aggregate health strictly below this starts the healing process. */
  const HealingThreshold: real := 0.8

  /** The event that opens every healing process. */
  const StartEvent: string := "Initiating self-healing process"

  /** Python's `ZeroDivisionError`, raised by an average over no metrics. */
  datatype TickError = ZeroDivision

  datatype Agent = Agent(metrics: PerformanceMetrics, requests: seq<string>, hub: Hub)

  /**
    What one healing process does to an agent `a`, stated position by
    position: the log gains the start event and then, for the i-th weak id
    `w`, the generated event for `w` followed by the apply event; the
    generator is asked for exactly the weak ids, in order; the code passed
    to `apply_updates` is the generator's answer for each of them, in order; the metrics stay.
   */
  ghost predicate HealedFrom(gen: string -> string, a: Agent, b: Agent) {
    var ws, n := Weaknesses(a.metrics), |a.hub.log|;
    && b.metrics == a.metrics
    && b.requests == a.requests + ws
    && b.hub.applied == a.hub.applied + MapSeq(gen, ws)
    && |b.hub.log| == n + 1 + 2 * |ws|
    && b.hub.log[..n] == a.hub.log
    && b.hub.log[n] == StartEvent
    && RemediationEventsAt(b.hub.log, n + 1, ws)
  }

  /** One pass of the loop body: generate a module for `target`, then apply it. */
  function Remediate(gen: string -> string, a: Agent, target: string): Agent {
    var (code, h) := GenerateModule(gen, target, a.hub);
    a.(requests := a.requests + [target], hub := ApplyUpdates(h, code))
  }

  /** One remediation appends one generated event and one apply event, and records one call of each. */
  lemma RemediateStep(gen: string -> string, a: Agent, target: string)
    ensures Remediate(gen, a, target).metrics == a.metrics
    ensures Remediate(gen, a, target).requests == a.requests + [target]
    ensures Remediate(gen, a, target).hub.applied == a.hub.applied + [gen(target)]
    ensures Remediate(gen, a, target).hub.log == a.hub.log + [GeneratedEvent(target), ApplyEvent]
  {}

  /**
    From position `n` on, `log` holds, for each target of `ws` in order, the
    generated event for that target followed by the apply event.
   */
  ghost predicate RemediationEventsAt(log: seq<string>, n: nat, ws: seq<string>) {
    && n + 2 * |ws| <= |log|
    && forall i :: 0 <= i < |ws| ==>
         log[n + 2 * i] == GeneratedEvent(ws[i]) && log[n + 2 * i + 1] == ApplyEvent
  }

  lemma RemediationEventsCons(log: seq<string>, n: nat, ws: seq<string>)
    requires |ws| > 0 && n + 2 <= |log|
    requires log[n] == GeneratedEvent(ws[0]) && log[n + 1] == ApplyEvent
    requires RemediationEventsAt(log, n + 2, ws[1..])
    ensures RemediationEventsAt(log, n, ws)
  {
    forall i | 1 <= i < |ws|
      ensures log[n + 2 * i] == GeneratedEvent(ws[i]) && log[n + 2 * i + 1] == ApplyEvent
    {
      assert ws[1..][i - 1] == ws[i];
      assert n + 2 * i == (n + 2) + 2 * (i - 1);
    }
  }

  /** The `for weakness in weaknesses` loop: remediates the targets one after another. */
  function RemediateAll(gen: string -> string, a: Agent, ws: seq<string>): Agent
    decreases |ws|
  {
    if |ws| == 0 then a else RemediateAll(gen, Remediate(gen, a, ws[0]), ws[1..])
  }

  /**
    The loop asks the generator for each target once, in order, passes its
    answer for each to `apply_updates`, and leaves the metrics alone.
   */
  lemma {:induction false} RemediateAllCalls(gen: string -> string, a: Agent, ws: seq<string>)
    ensures RemediateAll(gen, a, ws).metrics == a.metrics
    ensures RemediateAll(gen, a, ws).requests == a.requests + ws
    ensures RemediateAll(gen, a, ws).hub.applied == a.hub.applied + MapSeq(gen, ws)
    decreases |ws|
  {
    if |ws| > 0 {
      RemediateStep(gen, a, ws[0]);
      RemediateAllCalls(gen, Remediate(gen, a, ws[0]), ws[1..]);
      assert ws == [ws[0]] + ws[1..];
      MapSeqCons(gen, ws);
    }
  }

  /** The loop appends two events per target, in target order, to the log it is given. */
  lemma {:induction false} RemediateAllLog(gen: string -> string, a: Agent, ws: seq<string>)
    ensures |RemediateAll(gen, a, ws).hub.log| == |a.hub.log| + 2 * |ws|
    ensures RemediateAll(gen, a, ws).hub.log[..|a.hub.log|] == a.hub.log
    ensures RemediationEventsAt(RemediateAll(gen, a, ws).hub.log, |a.hub.log|, ws)
    decreases |ws|
  {
    if |ws| > 0 {
      var a1 := Remediate(gen, a, ws[0]);
      var log := RemediateAll(gen, a1, ws[1..]).hub.log;
      var n := |a.hub.log|;
      RemediateStep(gen, a, ws[0]);
      RemediateAllLog(gen, a1, ws[1..]);
      assert log[..n + 2] == a1.hub.log;
      assert log[..n] == a.hub.log by {
        assert log[..n] == log[..n + 2][..n];
      }
      assert log[n] == a1.hub.log[n] && log[n + 1] == a1.hub.log[n + 1];
      RemediationEventsCons(log, n, ws);
    }
  }

  /** `_initiate_healing_process`. */
  function Heal(gen: string -> string, a: Agent): (b: Agent)
    ensures HealedFrom(gen, a, b)
  {
    var a0 := a.(hub := LogEvent(a.hub, StartEvent));
    var b := RemediateAll(gen, a0, Weaknesses(a.metrics));
    RemediateAllCalls(gen, a0, Weaknesses(a.metrics));
    RemediateAllLog(gen, a0, Weaknesses(a.metrics));
    var n := |a.hub.log|;
    assert b.hub.log[..n] == a.hub.log by {
      assert b.hub.log[..n] == b.hub.log[..n + 1][..n];
    }
    b
  }

  /**
    One iteration of the `monitor_system` loop. With no metrics the average
    raises and the tick fails; otherwise it heals exactly when the aggregate
    health is strictly below the healing threshold, and leaves the agent as
    it was otherwise, so a health of exactly 0.8 adds no event.
   */
  function Tick(gen: string -> string, a: Agent): (r: Result<Agent, TickError>)
    ensures r.Failure? <==> |a.metrics| == 0
    ensures r.Success? ==> r.value.metrics == a.metrics
    ensures r.Success? ==> (r.value.hub.log != a.hub.log <==> Health(a.metrics) < HealingThreshold)
    ensures r.Success? && Health(a.metrics) < HealingThreshold ==> HealedFrom(gen, a, r.value)
    ensures r.Success? && HealingThreshold <= Health(a.metrics) ==> r.value == a
  {
    if |a.metrics| == 0 then Failure(ZeroDivision)
    else if Health(a.metrics) < HealingThreshold then Success(Heal(gen, a))
    else Success(a)
  }

  /** How many events one tick logs for these metrics. */
  function EventsPerTick(m: PerformanceMetrics): nat
    requires |m| > 0
  {
    if Health(m) < HealingThreshold then 1 + 2 * |Weaknesses(m)| else 0
  }

  /**
    `n` iterations of the monitoring loop, without the sleeps between them.
    Since no tick changes the metrics, every tick takes the same decision:
    with metrics, each of the `n` ticks appends the same number of events;
    without metrics, the first tick raises.
   */
  function RunTicks(gen: string -> string, a: Agent, n: nat): (r: Result<Agent, TickError>)
    ensures |a.metrics| == 0 ==> (r.Failure? <==> n > 0)
    ensures |a.metrics| > 0 ==> r.Success? && r.value.metrics == a.metrics
    ensures |a.metrics| > 0 ==> |r.value.hub.log| == |a.hub.log| + n * EventsPerTick(a.metrics)
    ensures r.Success? ==> |a.hub.log| <= |r.value.hub.log| && r.value.hub.log[..|a.hub.log|] == a.hub.log
    decreases n
  {
    if n == 0 then Success(a)
    else
      match Tick(gen, a)
      case Failure(e) => Failure(e)
      case Success(b) =>
        var r := RunTicks(gen, b, n - 1);
        assert |a.metrics| > 0 ==> |b.hub.log| == |a.hub.log| + EventsPerTick(a.metrics);
        assert r.Success? ==> r.value.hub.log[..|a.hub.log|] == r.value.hub.log[..|b.hub.log|][..|a.hub.log|];
        var k := if |a.metrics| > 0 then EventsPerTick(a.metrics) else 0;
        assert (n - 1) * k + k == n * k;
        r
  }

  /**
    Reading the generated events back out of the log after healing yields
    exactly the weak ids, in order: the log is a faithful record of which
    integrations were regenerated.
   */
  lemma {:induction false} HealLogNamesWeaknesses(gen: string -> string, a: Agent)
    ensures LoggedTargets(Heal(gen, a).hub.log) == LoggedTargets(a.hub.log) + Weaknesses(a.metrics)
  {
    var b, ws, n := Heal(gen, a), Weaknesses(a.metrics), |a.hub.log|;
    assert b.hub.log == a.hub.log + b.hub.log[n..];
    LoggedTargetsAppend(a.hub.log, b.hub.log[n..]);
    EventLogTargets(b.hub.log[n..], ws);
  }

  /** The shape of a healing trace determines the targets it names. */
  lemma {:induction false} EventLogTargets(events: seq<string>, ws: seq<string>)
    requires |events| == 1 + 2 * |ws|
    requires events[0] == StartEvent
    requires forall i :: 0 <= i < |ws| ==> events[1 + 2 * i] == GeneratedEvent(ws[i]) && events[2 + 2 * i] == ApplyEvent
    ensures LoggedTargets(events) == ws
  {
    assert TargetOf(StartEvent) == None by {
      assert StartEvent[0] != GeneratedPrefix[0];
    }
    PairTargets(events[1..], ws);
  }

  lemma {:induction false} PairTargets(events: seq<string>, ws: seq<string>)
    requires |events| == 2 * |ws|
    requires forall i :: 0 <= i < |ws| ==> events[2 * i] == GeneratedEvent(ws[i]) && events[2 * i + 1] == ApplyEvent
    ensures LoggedTargets(events) == ws
    decreases |ws|
  {
    if |ws| > 0 {
      TargetOfGenerated(ws[0]);
      assert TargetOf(ApplyEvent) == None by {
        assert ApplyEvent[0] != GeneratedPrefix[0];
      }
      assert events[1..][1..] == events[2..];
      forall i | 0 <= i < |ws[1..]|
        ensures events[2..][2 * i] == GeneratedEvent(ws[1..][i]) && events[2..][2 * i + 1] == ApplyEvent
      {
        assert events[2..][2 * i] == events[2 * (i + 1)];
        assert events[2..][2 * i + 1] == events[2 * (i + 1) + 1];
      }
      PairTargets(events[2..], ws[1..]);
      assert ws == [ws[0]] + ws[1..];
    }
  }
}
