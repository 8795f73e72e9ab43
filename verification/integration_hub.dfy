/**
  `IntegrationHub`: the event log and the updates handed to it.
  The log is the sequence of event strings handed to `log_event`, oldest
  first; `applied` records, in call order, the code passed to `apply_updates`.
 */
module IntegrationHub {

  datatype Hub = Hub(log: seq<string>, applied: seq<string>)

  /** The event `apply_updates` logs, whatever code it is given. */
  const ApplyEvent: string := "Applying integration module update"

  /** `log_event`: appends one event; nothing else changes. */
  function LogEvent(h: Hub, event: string): Hub {
    h.(log := h.log + [event])
  }

  /** `apply_updates`: records the `code` it is given and logs `ApplyEvent`; it does nothing else with it. */
  function ApplyUpdates(h: Hub, code: string): Hub {
    LogEvent(h.(applied := h.applied + [code]), ApplyEvent)
  }
}
