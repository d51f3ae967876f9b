/** The host's hook registry, seen only as the log of what was registered
    (`add_filter`, `add_action`); how the host later runs the callbacks is not
    part of this model. */
module Hooks {

  datatype Kind = Filter | Action

  /** One registration: the hook point, the plugin method bound to the
      singleton instance (`[$this, 'name']`) and its priority. */
  datatype Registration = Registration(kind: Kind, hook: string, callback: string, priority: int)

  /** The priority `add_filter` and `add_action` use when none is given. */
  const DefaultPriority: int := 10

  class Registry {
    var log: seq<Registration>

    constructor ()
      ensures log == []
    {
      log := [];
    }

    method AddFilter(hook: string, callback: string, priority: int)
      modifies this
      ensures log == old(log) + [Registration(Filter, hook, callback, priority)]
    {
      log := log + [Registration(Filter, hook, callback, priority)];
    }

    method AddAction(hook: string, callback: string, priority: int)
      modifies this
      ensures log == old(log) + [Registration(Action, hook, callback, priority)]
    {
      log := log + [Registration(Action, hook, callback, priority)];
    }
  }
}
