/** The `ws.on('message')` handler as a function of the command table and
    one message: the next table and what the handler does. */
module Handler {
  import opened Values
  import opened Protocol
  import opened Registry
  import opened Dispatcher

  /** What handling one message does beyond updating the table: a
      completed sync, one dispatch, or one of the two diagnostics the
      handler logs ("Unknown message", "Invalid message"). */
  datatype Outcome = Synced | Dispatched(action: Action) | Ignored | Rejected

  /** The table after the handler has processed `msg`. A sync that meets a
      `null` entry keeps the commands merged before it. */
  function NextMap(m: CommandMap, msg: Message): (r: CommandMap)
    ensures m.Keys <= r.Keys
    ensures !Classify(msg).Sync? ==> r == m
  {
    match Classify(msg)
    case Sync(es) => Merge(m, Leading(es))
    case _ => m
  }

  /** What the handler does with `msg`, given the table it finds. */
  function Reaction(m: CommandMap, msg: Message, host: HostContext): (r: Outcome)
    ensures r.Dispatched? <==> Classify(msg).Run?
    ensures r.Dispatched? ==> r.action == Dispatch(m, Classify(msg).id, host)
    ensures r.Synced? <==> Classify(msg).Sync? && AllObjects(Classify(msg).entries)
    ensures r.Ignored? <==> Classify(msg).Unknown?
  {
    match Classify(msg)
    case Sync(es) => if AllObjects(es) then Synced else Rejected
    case Run(id) => Dispatched(Dispatch(m, id, host))
    case Unknown => Ignored
    case Invalid => Rejected
  }

  /** An `init` message whose `commands` array holds objects only merges
      every one of them: each listed id maps to the last command carrying
      it, every other id keeps its entry or stays absent. */
  lemma InitMergesCommands(m: CommandMap, es: seq<Entry>, id: Option<string>, host: HostContext)
    requires AllObjects(es)
    ensures Reaction(m, Record(Some("init"), List(es), id), host) == Synced
    ensures forall j :: 0 <= j < |es| && (forall i :: j < i < |es| ==> Key(es[i].cmd) != Key(es[j].cmd)) ==>
      var next := NextMap(m, Record(Some("init"), List(es), id));
      Key(es[j].cmd) in next && next[Key(es[j].cmd)] == es[j].cmd
    ensures forall k :: (forall i :: 0 <= i < |es| ==> Key(es[i].cmd) != k) ==>
      var next := NextMap(m, Record(Some("init"), List(es), id));
      (k in next <==> k in m) && (k in m ==> next[k] == m[k])
  {
    var cs := Leading(es);
    var msg := Record(Some("init"), List(es), id);
    assert Classify(msg) == Sync(es);
    assert NextMap(m, msg) == Merge(m, cs);
    LeadingAll(es);
    forall j | 0 <= j < |es| && (forall i :: j < i < |es| ==> Key(es[i].cmd) != Key(es[j].cmd))
      ensures Key(cs[j]) in Merge(m, cs) && Merge(m, cs)[Key(cs[j])] == cs[j]
    {
      MergeLastWins(m, cs, j);
    }
    forall k | forall i :: 0 <= i < |es| ==> Key(es[i].cmd) != k
      ensures (k in Merge(m, cs) <==> k in m) && (k in m ==> Merge(m, cs)[k] == m[k])
    {
      MergeKeepsUnlisted(m, cs, k);
    }
  }

  /** An `init` message whose array holds a `null` at position `j` merges
      the commands before it, none after, and is logged as invalid. */
  lemma InitStopsAtNull(m: CommandMap, es: seq<Entry>, j: nat, id: Option<string>, host: HostContext)
    requires j < |es| && es[j].Null?
    requires forall i :: 0 <= i < j ==> es[i].Object?
    ensures Reaction(m, Record(Some("init"), List(es), id), host) == Rejected
    ensures NextMap(m, Record(Some("init"), List(es), id)) == Merge(m, Leading(es[..j]))
  {
    LeadingStopsAtNull(es, j);
    var pre := es[..j];
    assert AllObjects(pre);
    LeadingAll(pre);
    assert Leading(es) == Leading(pre);
  }

  /** A `run` message with a truthy id leaves the table alone and
      dispatches that id exactly once against it. */
  lemma RunDispatchesOnce(m: CommandMap, id: string, kind: Option<string>, commands: CommandsField, host: HostContext)
    requires id != ""
    requires kind == Some("run")
    ensures NextMap(m, Record(kind, commands, Some(id))) == m
    ensures Reaction(m, Record(kind, commands, Some(id)), host) == Dispatched(Dispatch(m, id, host))
  {
  }

  /** Away from the names a plain object inherits, the dispatch of a `run`
      message is the one the source's plain-object lookup makes. */
  lemma RunMatchesSourceOffPrototype(m: CommandMap, msg: Message, host: HostContext)
    requires Classify(msg).Run? && Classify(msg).id !in ObjectPrototypeMembers
    ensures Reaction(m, msg, host) == Dispatched(DispatchAsWritten(m, Classify(msg).id, host))
  {
    DispatchAgreesOffPrototype(m, Classify(msg).id, host);
  }

  /** Everything that is neither an `init` with commands nor a `run` with
      a truthy id leaves the table alone and dispatches nothing. */
  lemma OtherMessagesChangeNothing(m: CommandMap, msg: Message, host: HostContext)
    requires !(msg.Record? && msg.kind == Some("init") && !msg.commands.Falsy?)
    requires !(msg.Record? && msg.kind == Some("run") && Truthy(msg.id))
    ensures NextMap(m, msg) == m
    ensures Reaction(m, msg, host) == Ignored || Reaction(m, msg, host) == Rejected
    ensures Reaction(m, msg, host) == Rejected <==> msg.Unparseable? || msg.JsonNull?
  {
  }

  /** An `init` whose `commands` is truthy but not an array fails at
      `forEach` before touching the table. */
  lemma NonArrayCommandsChangeNothing(m: CommandMap, id: Option<string>, host: HostContext)
    ensures NextMap(m, Record(Some("init"), NotAList, id)) == m
    ensures Reaction(m, Record(Some("init"), NotAList, id), host) == Rejected
  {
  }

  /** A second sync adds to the first instead of replacing it: an id sent
      only in the first list is still found after the second. */
  lemma SecondSyncKeepsFirst(m: CommandMap, first: seq<Entry>, second: seq<Entry>, k: string)
    requires AllObjects(first) && AllObjects(second)
    requires exists j :: 0 <= j < |first| && Key(first[j].cmd) == k
    requires forall i :: 0 <= i < |second| ==> Key(second[i].cmd) != k
    ensures k in NextMap(NextMap(m, Record(Some("init"), List(first), None)), Record(Some("init"), List(second), None))
  {
    var j :| 0 <= j < |first| && Key(first[j].cmd) == k;
    LeadingAll(first);
    LeadingAll(second);
    var once := Merge(m, Leading(first));
    MergeKeys(m, Leading(first));
    assert Key(Leading(first)[j]) == k;
    assert k in once;
    MergeKeepsUnlisted(once, Leading(second), k);
  }

  /** Syncing one snippet command and then running it with an editor open
      inserts that snippet, once; running an unknown id on an empty table
      only warns. */
  lemma SnippetScenario()
    ensures
      var c := Command(Some("a"), Some("snippet"), Some("{"), None);
      var m := NextMap(map[], Record(Some("init"), List([Object(c)]), None));
      Reaction(m, Record(Some("run"), Falsy, Some("a")), HostContext(true, false))
        == Dispatched(InsertSnippet(Some("{")))
    ensures Reaction(map[], Record(Some("run"), Falsy, Some("b")), HostContext(true, true))
      == Dispatched(WarnNotFound("b"))
  {
    var c := Command(Some("a"), Some("snippet"), Some("{"), None);
    LeadingAll([Object(c)]);
    MergeLastWins(map[], [c], 0);
  }
}
