/** Concrete runs of one monitoring tick, for fixed metrics and any generator and prior log. */
module Scenarios {
  import opened Wrappers
  import opened Metrics
  import opened IntegrationHub
  import opened ModuleGenerator
  import opened MasterAgent

  function Degraded(): PerformanceMetrics {
    [Entry("A", 0.9), Entry("B", 0.65), Entry("C", 0.5)]
  }

  /** For {A: 0.9, B: 0.65, C: 0.5} the mean is about 0.683 and the weak ids are B then C. */
  lemma DegradedEvaluation()
    ensures Health(Degraded()) < HealingThreshold
    ensures Weaknesses(Degraded()) == ["B", "C"]
  {
    var m := Degraded();
    assert m[1..] == [Entry("B", 0.65), Entry("C", 0.5)];
    assert m[1..][1..] == [Entry("C", 0.5)];
    assert m[1..][1..][1..] == [];
    assert Sum(m) == 2.05;
  }

  /**
    Metrics {A: 0.9, B: 0.65, C: 0.5}: the tick heals, and it regenerates B
    before C, in key order rather than worst score first.
   */
  lemma DegradedTick(gen: string -> string, log: seq<string>)
    ensures var a := Agent(Degraded(), [], Hub(log, []));
            && Tick(gen, a).Success?
            && Tick(gen, a).value.requests == ["B", "C"]
            && Tick(gen, a).value.hub.applied == [gen("B"), gen("C")]
            && Tick(gen, a).value.hub.log == log + [StartEvent, GeneratedEvent("B"), ApplyEvent, GeneratedEvent("C"), ApplyEvent]
  {
    var a := Agent(Degraded(), [], Hub(log, []));
    DegradedEvaluation();
    var b := Tick(gen, a).value;
    assert HealedFrom(gen, a, b);
    var n := |log|;
    var expected := log + [StartEvent, GeneratedEvent("B"), ApplyEvent, GeneratedEvent("C"), ApplyEvent];
    assert b.hub.log[n + 1 + 2 * 0] == GeneratedEvent("B") && b.hub.log[n + 1 + 2 * 0 + 1] == ApplyEvent;
    assert b.hub.log[n + 1 + 2 * 1] == GeneratedEvent("C") && b.hub.log[n + 1 + 2 * 1 + 1] == ApplyEvent;
    forall i | 0 <= i < |expected| ensures b.hub.log[i] == expected[i] {
      if i < n {
        assert b.hub.log[i] == b.hub.log[..n][i];
      }
    }
    assert b.hub.log == expected;
  }

  /** Metrics {A: 0.95, B: 0.9}: the mean is 0.925, so the tick logs nothing and changes nothing. */
  lemma HealthyTick(gen: string -> string, a: Agent)
    requires a.metrics == [Entry("A", 0.95), Entry("B", 0.9)]
    ensures Tick(gen, a) == Success(a)
  {
    var m := a.metrics;
    assert m[1..] == [Entry("B", 0.9)];
    assert Sum(m[1..][1..]) == 0.0;
    assert Sum(m[1..]) == 0.9;
    assert Sum(m) == 1.85;
  }

  /**
    A freshly constructed agent has no metrics, so its first tick raises
    instead of deciding anything.
   */
  lemma EmptyTick(gen: string -> string, h: Hub)
    ensures Tick(gen, Agent([], [], h)) == Failure(ZeroDivision)
  {}

  /** A health of exactly 0.8 is not below the threshold: the tick changes nothing. */
  lemma BoundaryTick(gen: string -> string, a: Agent)
    requires a.metrics == [Entry("A", 0.8)]
    ensures Tick(gen, a) == Success(a)
  {
    assert a.metrics[1..] == [];
    assert Sum(a.metrics) == 0.8;
  }
}
