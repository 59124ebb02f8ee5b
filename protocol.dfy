/** The messages the workstation accepts from the device, after
    `JSON.parse`, and the branch of the message handler each one takes. */
module Protocol {
  import opened Values

  /** A command object as the device sends it. Only the fields the
      workstation reads are kept; `kind` is the JSON field `type`. */
  datatype Command = Command(
    id: Option<string>,
    kind: Option<string>,
    snippet: Option<string>,
    vscodeCommand: Option<string>)

  /** An element of the `commands` array: an object, or `null`, on which
      reading `cmd.id` throws. */
  datatype Entry = Object(cmd: Command) | Null

  /** The `commands` property of a parsed message as the handler tests it:
      falsy (absent, null, false, 0, ""), a truthy value that is not an
      array (it has no `forEach`), or an array. */
  datatype CommandsField = Falsy | NotAList | List(entries: seq<Entry>)

  /** The result of parsing one incoming message. */
  datatype Message =
    | Unparseable        // JSON.parse threw
    | JsonNull           // the text was `null`: reading `parsed.type` throws
    | Record(kind: Option<string>, commands: CommandsField, id: Option<string>)

  /** The branch the handler takes: sync, run, "Unknown message" or the
      catch block ("Invalid message"). */
  datatype Request = Sync(entries: seq<Entry>) | Run(id: string) | Unknown | Invalid

  /** The `if`/`else if`/`else` of the message handler together with the
      exceptions its conditions can raise before any state is touched. */
  function Classify(msg: Message): (r: Request)
    ensures r.Sync? <==> msg.Record? && msg.kind == Some("init") && msg.commands.List?
    ensures r.Sync? ==> r.entries == msg.commands.entries
    ensures r.Run? <==> msg.Record? && msg.kind == Some("run") && Truthy(msg.id)
    ensures r.Run? ==> msg.id == Some(r.id) && r.id != ""
    ensures r.Invalid? <==>
      || msg.Unparseable?
      || msg.JsonNull?
      || (msg.Record? && msg.kind == Some("init") && msg.commands.NotAList?)
  {
    match msg
    case Unparseable => Invalid
    case JsonNull => Invalid
    case Record(kind, commands, id) =>
      if kind == Some("init") && !commands.Falsy? then
        match commands
        case List(es) => Sync(es)
        case _ => Invalid
      else if kind == Some("run") && Truthy(id) then
        Run(id.value)
      else
        Unknown
  }
}
