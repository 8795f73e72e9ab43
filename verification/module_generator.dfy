/**
  `IntegrationModuleGenerator`: asks the language model for a module for one
  integration target and logs that it did. The model is the parameter `gen`,
  a total function: every call returns, and the same target always gets the
  same code.
 */
module ModuleGenerator {
  import opened Wrappers
  import opened IntegrationHub

  /** Fixed text before the target in the event `generate_module` logs. */
  const GeneratedPrefix: string := "Generated new integration module for "

  /** The event logged after generating a module for `target`. */
  function GeneratedEvent(target: string): string {
    GeneratedPrefix + target
  }

  /**
    Reads the target back out of a logged event: `Some(t)` exactly for the
    events `GeneratedEvent(t)`, `None` for every other event.
   */
  function TargetOf(event: string): (r: Option<string>)
    ensures r.Some? ==> GeneratedEvent(r.value) == event
    ensures r.None? ==> forall t :: GeneratedEvent(t) != event
  {
    if |GeneratedPrefix| <= |event| && event[..|GeneratedPrefix|] == GeneratedPrefix then
      assert GeneratedPrefix + event[|GeneratedPrefix|..] == event;
      Some(event[|GeneratedPrefix|..])
    else
      assert forall t :: (GeneratedPrefix + t)[..|GeneratedPrefix|] == GeneratedPrefix;
      None
  }

  /** The generated event names its target unambiguously. */
  lemma TargetOfGenerated(target: string)
    ensures TargetOf(GeneratedEvent(target)) == Some(target)
  {
    assert GeneratedEvent(target)[..|GeneratedPrefix|] == GeneratedPrefix;
    assert GeneratedEvent(target)[|GeneratedPrefix|..] == target;
  }

  /** The targets named by the generated events of `log`, in log order. */
  function LoggedTargets(log: seq<string>): seq<string> {
    if |log| == 0 then []
    else
      match TargetOf(log[0])
      case Some(t) => [t] + LoggedTargets(log[1..])
      case None => LoggedTargets(log[1..])
  }

  lemma {:induction false} LoggedTargetsAppend(a: seq<string>, b: seq<string>)
    ensures LoggedTargets(a + b) == LoggedTargets(a) + LoggedTargets(b)
    decreases |a|
  {
    if |a| == 0 {
      assert a + b == b;
    } else {
      assert (a + b)[1..] == a[1..] + b;
      LoggedTargetsAppend(a[1..], b);
    }
  }

  /**
    `generate_module`: the code the model produces for `target`, and the hub
    after logging the generated event.
   */
  function GenerateModule(gen: string -> string, target: string, h: Hub): (string, Hub) {
    (gen(target), LogEvent(h, GeneratedEvent(target)))
  }
}
