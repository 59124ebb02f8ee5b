/** The module-level state of the extension (`wss`, `isServerRunning`,
    `commandMap`, the status-bar item) and the functions that update it. */
module Extension {
  import opened Values
  import opened Protocol
  import opened Registry
  import opened Dispatcher
  import opened StatusBar
  import opened Handler

  class Globals {
    /** `isServerRunning` */
    var isServerRunning: bool
    /** whether `wss` holds a server (it is `undefined` or `null` otherwise) */
    var hasWss: bool
    /** `commandMap`, shared by every connection */
    var commandMap: CommandMap
    /** the text and colour of `statusBarItem` */
    var statusBar: Display

    /** The item shows the flag, and a server object exists exactly while
        the flag is set. */
    ghost predicate Valid()
      reads this
    {
      statusBar == Indicator(isServerRunning) && hasWss == isServerRunning
    }

    /** The state after the module loads and `activate` first paints the
        status bar. */
    constructor ()
      ensures Valid()
      ensures !isServerRunning && !hasWss && commandMap == map[]
    {
      isServerRunning := false;
      hasWss := false;
      commandMap := map[];
      statusBar := Indicator(false);
      new;
      UpdateStatusBar();
    }

    /** `updateStatusBar` */
    method UpdateStatusBar()
      modifies this`statusBar
      ensures statusBar == Indicator(isServerRunning)
    {
      if isServerRunning {
        statusBar := Display(RunningText, "green");
      } else {
        statusBar := Display(StoppedText, "red");
      }
    }

    /** The `forEach` of the `init` branch. It stops at the first `null`
        entry, keeping what it merged so far; `completed` says whether it
        reached the end. */
    method SyncCommands(entries: seq<Entry>) returns (completed: bool)
      modifies this`commandMap
      ensures commandMap == Merge(old(commandMap), Leading(entries))
      ensures completed <==> AllObjects(entries)
    {
      ghost var done: seq<Command> := [];
      var i := 0;
      while i < |entries|
        invariant 0 <= i <= |entries|
        invariant forall k :: 0 <= k < i ==> entries[k].Object?
        invariant commandMap == Merge(old(commandMap), done)
        invariant Leading(entries) == done + Leading(entries[i..])
      {
        if entries[i].Null? {
          assert Leading(entries[i..]) == [];
          assert done + [] == done;
          return false;
        }
        var cmd := entries[i].cmd;
        assert entries[i..][1..] == entries[i + 1..];
        assert (done + [cmd])[..|done|] == done;
        commandMap := commandMap[Key(cmd) := cmd];
        done := done + [cmd];
        i := i + 1;
      }
      assert done + [] == done;
      return true;
    }

    /** The `ws.on('message')` handler for one parsed message. `host` is
        the editor's state when a `run` is dispatched. The server flag is
        not consulted: a connection that is still open delivers its
        messages to this handler whatever the flag says. */
    method HandleMessage(msg: Message, host: HostContext) returns (o: Outcome)
      modifies this`commandMap
      ensures commandMap == NextMap(old(commandMap), msg)
      ensures o == Reaction(old(commandMap), msg, host)
    {
      match Classify(msg)
      case Sync(es) =>
        var completed := SyncCommands(es);
        o := if completed then Synced else Rejected;
      case Run(id) =>
        o := Dispatched(Dispatch(commandMap, id, host));
      case Unknown =>
        o := Ignored;
      case Invalid =>
        o := Rejected;
    }

    /** `startServer`. Whether `new WebSocket.Server` throws is the input
        `succeeds`, and `reason` is the message of the error it throws. A
        failure changes nothing and shows an error. */
    method StartServer(succeeds: bool, reason: string) returns (n: Option<Notice>)
      modifies this`isServerRunning, this`hasWss, this`statusBar
      ensures succeeds ==> isServerRunning && hasWss && statusBar == Indicator(true) && n.None?
      ensures !succeeds ==>
        && isServerRunning == old(isServerRunning)
        && hasWss == old(hasWss)
        && statusBar == old(statusBar)
        && n == Some(Error("Failed to start server: " + reason))
    {
      if succeeds {
        hasWss := true;
        isServerRunning := true;
        UpdateStatusBar();
        n := None;
      } else {
        n := Some(Error("Failed to start server: " + reason));
      }
    }

    /** `stopServer`: from any state, it ends with no server object and the
        flag cleared. */
    method StopServer()
      modifies this`isServerRunning, this`hasWss, this`statusBar
      ensures !isServerRunning && !hasWss
      ensures Valid()
    {
      if hasWss {
        hasWss := false;
      }
      isServerRunning := false;
      UpdateStatusBar();
    }

    /** The `vscxr.toggleServer` command. */
    method Toggle(startSucceeds: bool, reason: string) returns (n: Option<Notice>)
      requires Valid()
      modifies this`isServerRunning, this`hasWss, this`statusBar
      ensures Valid()
      ensures commandMap == old(commandMap)
      ensures old(isServerRunning) ==> !isServerRunning && n.None?
      ensures !old(isServerRunning) ==>
        && isServerRunning == startSucceeds
        && n == (if startSucceeds then None else Some(Error("Failed to start server: " + reason)))
    {
      if isServerRunning {
        StopServer();
        n := None;
      } else {
        n := StartServer(startSucceeds, reason);
      }
    }
  }

  /** A session against the contracts above: the table outlives a stop
      and restart of the server. */
  method RestartKeepsCommands()
  {
    var g := new Globals();
    var c := Command(Some("a"), Some("snippet"), Some("{"), None);
    var o := g.HandleMessage(Record(Some("init"), List([Object(c)]), None), HostContext(true, false));
    LeadingAll([Object(c)]);
    MergeLastWins(map[], [c], 0);
    assert o == Synced;
    var n := g.Toggle(true, "");
    assert g.isServerRunning;
    n := g.Toggle(false, "");
    assert !g.isServerRunning && !g.hasWss;
    o := g.HandleMessage(Record(Some("run"), Falsy, Some("a")), HostContext(true, false));
    assert o == Dispatched(InsertSnippet(Some("{")));
  }
}
