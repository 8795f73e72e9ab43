# Self-healing integration hub: a verified model of the master agent

This project models the decision core of the `MasterAgent` of the
autonomous self-healing integration hub:

- **health aggregation** (`_get_current_health`): the mean of the
  per-integration scores in `performance_metrics`;
- **weakness detection** (`_identify_weaknesses`): the ids whose score is
  strictly below 0.7, in the dict's insertion order;
- **one control tick** (one pass of the `monitor_system` loop): heal if and
  only if aggregate health is strictly below 0.8;
- **the healing process** (`_initiate_healing_process`): log
  "Initiating self-healing process", then for each weak id ask the module
  generator for a module (which logs "Generated new integration module for
  <id>") and hand it to `IntegrationHub.apply_updates` (which logs
  "Applying integration module update").

Modules:

- `Metrics` (`metrics.dfy`): `performance_metrics` as a sequence of
  `Entry(id, score)` in insertion order (dict keys are unique:
  `DistinctIds`), `Health`, `Weaknesses` and their properties.
- `IntegrationHub` (`integration_hub.dfy`): the hub state `Hub(log, applied)`:
  the event strings passed to `log_event`, and the code passed to
  `apply_updates`, both in call order. `LogEvent` and `ApplyUpdates` only
  append; their effect is stated by the lemmas about the healing loop.
- `ModuleGenerator` (`module_generator.dfy`): `generate_module` with the
  language model as a parameter `gen: string -> string` (a total,
  deterministic function: see `GenerateModule` under "## Left out"), the generated event text, and `TargetOf`, which reads the target
  back out of a logged event.
- `MasterAgent` (`master_agent.dfy`): the agent state `Agent(metrics,
  requests, hub)`, where `requests` lists the targets passed to the generator
  in call order; `Remediate` (one loop pass), `RemediateAll` (the loop),
  `Heal`, `Tick` and `RunTicks` (a bounded number of ticks).
- `Scenarios` (`scenarios.dfy`): concrete ticks on fixed metrics.
- `Wrappers`, `Sequences`: `Option`/`Result`, subsequence and
  duplicate-freedom predicates with their generic lemmas.

Every operation is a pure function of the agent state, so the metrics cannot
change; the contracts still state it (`b.metrics == a.metrics`) because the
agent state returned also carries them.

Scores and the mean are mathematical reals. `_get_current_health` divides by
`len(performance_metrics)`, which raises `ZeroDivisionError` on empty
metrics: `Health` requires non-empty metrics, and `Tick` returns
`Failure(ZeroDivision)` in that case, which is what the loop does (the
exception leaves `monitor_system`). The constructor sets
`performance_metrics = {}` and nothing in the core writes to it, so the first
tick of a freshly built agent raises (`Scenarios.EmptyTick`).

What the code does, and does not do, on the points that matter for the model:

- weak ids come in dict insertion order and are never sorted
  (`Scenarios.DegradedTick` regenerates B before C for
  {A: 0.9, B: 0.65, C: 0.5});
- the thresholds 0.8 and 0.7 are hard-coded constants;
- a healthy tick logs nothing;
- an empty registry is an uncaught `ZeroDivisionError`;
- nothing catches an exception from the generator or from `apply_updates`,
  and `apply_updates` only logs: it returns no result.

## Model

| member | source | states |
|---|---|---|
| `Metrics.Weaknesses` | master_agent.py:89-97 | an id is in the result exactly when some entry with that id has score strictly below 0.7, and the result is a subsequence of the keys in insertion order |
| `Metrics.WeaknessesDistinct` | master_agent.py:97 | with unique keys, no id is reported twice |
| `Metrics.WeaknessesUnique` | master_agent.py:97 | any list that is taken in key order from the metrics and holds exactly the weak ids equals the weakness list, so the two properties above fully determine it |
| `Metrics.Health` | master_agent.py:66-74 | on non-empty metrics the mean lies between the lowest and the highest score, and in [0, 1] whenever every score is, as the docstring promises |
| `Metrics.SumBounds` | master_agent.py:74 | the sum of n scores each in [lo, hi] lies in [n·lo, n·hi] |
| `Metrics.SumPermutation` | master_agent.py:74 | the sum of the values does not depend on the order of the entries |
| `Metrics.HealthPermutation` | master_agent.py:66-74 | aggregate health is invariant under reordering the metrics |
| `ModuleGenerator.TargetOf` | master_agent.py:40 | returns `Some(t)` only for the event generated for `t`, and `None` for every event that no target produces |
| `ModuleGenerator.TargetOfGenerated` | master_agent.py:40 | the generated event names its target unambiguously: reading it back yields that target |
| `ModuleGenerator.LoggedTargetsAppend` | master_agent.py:103-110 | targets read from a log that grew by appending are the old ones followed by the new ones |
| `MasterAgent.RemediateStep` | master_agent.py:85-87 | one loop pass (`Remediate` = `ModuleGenerator.GenerateModule` then `IntegrationHub.ApplyUpdates`, each appending through `IntegrationHub.LogEvent`) requests a module for its target, records exactly the generator's answer as the code passed to `apply_updates`, and appends the generated event then the apply event |
| `MasterAgent.RemediateAllCalls` | master_agent.py:85-87 | the loop calls the generator once per target in order, records the generator's answer for each target, in order, as the code passed to `apply_updates`, and leaves the metrics unchanged |
| `MasterAgent.RemediateAllLog` | master_agent.py:85-87 | the loop keeps the old log as a prefix and appends, for the i-th target, its generated event at offset 2i and the apply event at 2i+1 |
| `MasterAgent.Heal` | master_agent.py:76-87 | healing keeps the metrics and the old log, appends the start event and then two events per weak id in order (1 + 2·\|weaknesses\| events), requests exactly the weak ids and records the generator's answer for each as the code passed to `apply_updates` |
| `MasterAgent.Tick` | master_agent.py:58-62 | fails exactly when there are no metrics; otherwise heals as stated by `HealedFrom` if health is strictly below 0.8, changes the log if and only if it heals, and leaves the agent unchanged at or above 0.8 |
| `MasterAgent.RunTicks` | master_agent.py:58-64 | over n ticks the metrics never change, so every tick appends the same number of events; on empty metrics the first tick fails |
| `MasterAgent.HealLogNamesWeaknesses` | master_agent.py:80-87 | reading the generated events back out of the log after healing yields the old targets followed by exactly the weak ids in order |
| `MasterAgent.EventLogTargets` | master_agent.py:80-87 | a trace of the healing shape names exactly the targets it was built from |
| `Scenarios.DegradedEvaluation` | master_agent.py:66-97 | for {A: 0.9, B: 0.65, C: 0.5} health is below 0.8 and the weak ids are B then C |
| `Scenarios.DegradedTick` | master_agent.py:58-87 | for those metrics the tick logs start, B's two events, C's two events, in that order |
| `Scenarios.HealthyTick` | master_agent.py:59-62 | for {A: 0.95, B: 0.9} the tick changes nothing and logs nothing |
| `Scenarios.BoundaryTick` | master_agent.py:61 | at health exactly 0.8 the tick changes nothing |
| `Scenarios.EmptyTick` | master_agent.py:50-74 | the first tick of an agent with no metrics raises the division error |

## Left out

- The `while True` loop and `time.sleep(60)` of `monitor_system`: wall-clock scheduling is not modelled; `RunTicks` iterates a given number of ticks instead.
- GenerateModule: assumes `llm_chain.predict` always returns and is deterministic (`gen` is a total function, the same code for the same target on every call and tick); in the code a raised exception is not caught and ends `monitor_system`, cutting the healing trace after the last completed target, and the model does not describe that trace.
- `LLMChain.predict` and the prompt text built for it: the language model is the parameter `gen`, and the prompt is not modelled.
- `logging.info` and its "Integration Hub Event: " formatting: the log holds the event strings passed to `log_event`.
- `report_health`: it reads `time.time()` and always reports "healthy", so there is nothing to state about it.
- integration_hub.py repeats the `IntegrationHub` static methods of master_agent.py word for word; the model follows the master_agent.py copy.
- integration_module_generator.py stops after the signature of `generate_module`; the model follows the complete copy in master_agent.py.
- Writes to `performance_metrics`: nothing in the core writes to it after the constructor, so the metrics are an input of the model.
- Floating-point rounding: scores and the mean are exact reals, so values within rounding distance of 0.7 or 0.8 may compare differently in the program.
