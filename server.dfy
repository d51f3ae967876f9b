/** The request's `$_SERVER` array and the two changes the plugin makes to its
    `SERVER_NAME` entry. */
module Server {
  import opened Php

  const ServerName: string := "SERVER_NAME"

  /** The process-wide server variables, updated in place. */
  class Env {
    var vars: map<string, Value>

    constructor (vars: map<string, Value>)
      ensures this.vars == vars
    {
      this.vars := vars;
    }
  }

  /** The server variables after the workaround: `SERVER_NAME` is given the
      placeholder only when it is not set, and nothing else changes. */
  function WithServerName(vars: map<string, Value>, placeholder: string): (r: map<string, Value>)
    ensures IsSet(r, ServerName)
    ensures IsSet(vars, ServerName) ==> r == vars
    ensures !IsSet(vars, ServerName) ==> r[ServerName] == Str(placeholder)
    ensures forall k :: k != ServerName ==> (k in r <==> k in vars)
    ensures forall k :: k != ServerName && k in vars ==> r[k] == vars[k]
  {
    if IsSet(vars, ServerName) then vars else vars[ServerName := Str(placeholder)]
  }

  /** The server variables after the cleanup: `SERVER_NAME` is no longer set;
      an entry that was set is removed, a null entry stays, and nothing else
      changes. */
  function WithoutServerName(vars: map<string, Value>): (r: map<string, Value>)
    ensures !IsSet(r, ServerName)
    ensures IsSet(vars, ServerName) ==> ServerName !in r
    ensures !IsSet(vars, ServerName) ==> r == vars
    ensures forall k :: k != ServerName ==> (k in r <==> k in vars)
    ensures forall k :: k != ServerName && k in vars ==> r[k] == vars[k]
  {
    if IsSet(vars, ServerName) then vars - {ServerName} else vars
  }

  /** A workaround and its cleanup, starting with no `SERVER_NAME` entry,
      leave the server variables as they were. */
  lemma CycleRestores(vars: map<string, Value>, placeholder: string)
    requires ServerName !in vars
    ensures WithoutServerName(WithServerName(vars, placeholder)) == vars
  {
    var r := WithoutServerName(WithServerName(vars, placeholder));
    assert r.Keys == vars.Keys;
  }

  /** Whatever the start, after a workaround and its cleanup `SERVER_NAME` is
      not set; a null `SERVER_NAME` entry is dropped on the way. */
  lemma CycleUnsets(vars: map<string, Value>, placeholder: string)
    ensures !IsSet(WithoutServerName(WithServerName(vars, placeholder)), ServerName)
    ensures !IsSet(vars, ServerName) ==> ServerName !in WithoutServerName(WithServerName(vars, placeholder))
  {
  }

  /** When `SERVER_NAME` is already set the workaround changes nothing, so a
      cleanup that runs afterwards removes the entry the request had. */
  lemma CleanupRemovesPreexisting(vars: map<string, Value>, placeholder: string)
    requires IsSet(vars, ServerName)
    ensures WithServerName(vars, placeholder) == vars
    ensures WithoutServerName(WithServerName(vars, placeholder)) == vars - {ServerName}
  {
  }
}
