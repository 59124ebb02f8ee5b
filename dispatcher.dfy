/** `handleCommand`: turning one command id into one editor action. */
module Dispatcher {
  import opened Values
  import opened Protocol
  import opened Registry

  /** What the editor offers at the moment of the call: an active text
      editor, an active terminal. */
  datatype HostContext = HostContext(hasEditor: bool, hasTerminal: bool)

  /** The single outcome of one dispatch. */
  datatype Action =
    | WarnNotFound(id: string)
    | InsertSnippet(snippet: Option<string>)
    | WarnNoEditor
    | DisposeTerminal
    | WarnNoTerminal
    | Execute(name: Option<string>)

  /** A message shown to the operator in the editor window. */
  datatype Notice = Warning(text: string) | Error(text: string)

  /** Looks `id` up among the table's own entries and picks the action
      its `type` calls for; a `type` other than "snippet" or "terminal",
      or none at all, executes `vscodeCommand`. */
  function Dispatch(m: CommandMap, id: string, host: HostContext): (a: Action)
    ensures a.WarnNotFound? <==> id !in m
    ensures a.WarnNotFound? ==> a.id == id
    ensures a.InsertSnippet? <==> id in m && m[id].kind == Some("snippet") && host.hasEditor
    ensures a.InsertSnippet? ==> a.snippet == m[id].snippet
    ensures a.WarnNoEditor? <==> id in m && m[id].kind == Some("snippet") && !host.hasEditor
    ensures a.DisposeTerminal? <==>
      id in m && m[id].kind == Some("terminal")
      && m[id].vscodeCommand == Some("closeTerminal") && host.hasTerminal
    ensures a.WarnNoTerminal? <==>
      id in m && m[id].kind == Some("terminal")
      && !(m[id].vscodeCommand == Some("closeTerminal") && host.hasTerminal)
    ensures a.Execute? <==>
      id in m && m[id].kind != Some("snippet") && m[id].kind != Some("terminal")
    ensures a.Execute? ==> a.name == m[id].vscodeCommand
  {
    if id !in m then WarnNotFound(id)
    else
      var cmd := m[id];
      if cmd.kind == Some("snippet") then
        if host.hasEditor then InsertSnippet(cmd.snippet) else WarnNoEditor
      else if cmd.kind == Some("terminal") then
        if cmd.vscodeCommand == Some("closeTerminal") && host.hasTerminal then DisposeTerminal
        else WarnNoTerminal
      else
        Execute(cmd.vscodeCommand)
  }

  /** The warning shown at once for an action; inserting, disposing and
      executing show none. */
  function WarningFor(a: Action): (n: Option<Notice>)
    ensures n.Some? <==> a.WarnNotFound? || a.WarnNoEditor? || a.WarnNoTerminal?
    ensures n.Some? ==> n.value.Warning?
    ensures a.WarnNotFound? ==> n == Some(Warning("Command not found: " + a.id))
    ensures a.WarnNoEditor? ==> n == Some(Warning("No active editor to insert snippet."))
    ensures a.WarnNoTerminal? ==> n == Some(Warning("No active terminal to close."))
  {
    match a
    case WarnNotFound(id) => Some(Warning("Command not found: " + id))
    case WarnNoEditor => Some(Warning("No active editor to insert snippet."))
    case WarnNoTerminal => Some(Warning("No active terminal to close."))
    case _ => None
  }

  /** What the operator sees once the promise of `executeCommand` settles:
      an error message exactly when it was rejected. */
  function ExecutionNotice(name: Option<string>, fulfilled: bool): (n: Option<Notice>)
    ensures n.Some? <==> !fulfilled
    ensures n.Some? ==> n.value == Error("Failed to execute command: " + Render(name))
  {
    if fulfilled then None else Some(Error("Failed to execute command: " + Render(name)))
  }

  /** The names a plain JavaScript object inherits from `Object.prototype`;
      `commandMap[id]` finds each of them even when no command was synced
      under it. */
  const ObjectPrototypeMembers: set<string> := {
    "constructor", "hasOwnProperty", "isPrototypeOf", "propertyIsEnumerable",
    "toLocaleString", "toString", "valueOf", "__proto__",
    "__defineGetter__", "__defineSetter__", "__lookupGetter__", "__lookupSetter__"
  }

  /** `handleCommand` as written: `commandMap[id]` on a plain object. An
      inherited member is truthy and has no `type` or `vscodeCommand`, so
      the `default` branch executes `undefined`. */
  function DispatchAsWritten(m: CommandMap, id: string, host: HostContext): (a: Action)
    ensures id in m ==> a == Dispatch(m, id, host)
    ensures id !in m && id in ObjectPrototypeMembers ==> a == Execute(None)
    ensures id !in m && id !in ObjectPrototypeMembers ==> a == WarnNotFound(id)
  {
    if id in m then Dispatch(m, id, host)
    else if id in ObjectPrototypeMembers then Execute(None)
    else WarnNotFound(id)
  }

  /** With nothing synced, a run request for "toString" executes an
      undefined command as written, where the intended dispatcher warns
      "Command not found". */
  lemma InheritedNameIsNotReportedMissing(host: HostContext)
    ensures DispatchAsWritten(map[], "toString", host) == Execute(None)
    ensures Dispatch(map[], "toString", host) == WarnNotFound("toString")
    ensures WarningFor(Dispatch(map[], "toString", host)) == Some(Warning("Command not found: toString"))
  {
    assert "toString" in ObjectPrototypeMembers;
    assert "Command not found: " + "toString" == "Command not found: toString";
  }

  /** The two dispatchers agree on every id that is not an inherited name. */
  lemma DispatchAgreesOffPrototype(m: CommandMap, id: string, host: HostContext)
    requires id !in ObjectPrototypeMembers
    ensures DispatchAsWritten(m, id, host) == Dispatch(m, id, host)
  {
  }
}
