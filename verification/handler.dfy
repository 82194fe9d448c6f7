/**
 The request handler of the task server: `init` validates the configuration
 and starts the scheduler, `exec` runs one of five commands, `help` describes
 one and `usage` describes none. The scheduler and the serving transport are
 foreign; they appear only through the state `exec` changes.
 */
module Handler {
  import opened Outcomes
  import opened Numbers
  import opened Config
  import opened Access
  import opened Render

  /** The five command names both `exec` and `help` know. */
  datatype Command = GetSessionInfo | GetTasksStatus | LockScheduler | UnlockScheduler | StopServer
  {
    function Name(): string
    {
      match this
      case GetSessionInfo => "GetSessionInfo"
      case GetTasksStatus => "GetTasksStatus"
      case LockScheduler => "LockScheduler"
      case UnlockScheduler => "UnlockScheduler"
      case StopServer => "StopServer"
    }

    /** The text `help` answers for the command. */
    function Description(): string
    {
      match this
      case GetSessionInfo => "Get session info"
      case GetTasksStatus => "Get task status"
      case LockScheduler => "Lock the scheduler"
      case UnlockScheduler => "Unlock the scheduler"
      case StopServer => "Stop the server"
    }
  }

  /** The command a name stands for: the one whose name it is, if any. */
  function Resolve(name: string): (r: Option<Command>)
    ensures r.Some? ==> r.value.Name() == name
    ensures forall c: Command :: c.Name() == name ==> r == Some(c)
  {
    if name == "GetSessionInfo" then Some(GetSessionInfo)
    else if name == "GetTasksStatus" then Some(GetTasksStatus)
    else if name == "LockScheduler" then Some(LockScheduler)
    else if name == "UnlockScheduler" then Some(UnlockScheduler)
    else if name == "StopServer" then Some(StopServer)
    else None
  }

  // ---------------------------------------------------------------------------
  // The describing surfaces

  /**
   `help`: the description of a command. Every command but GetSessionInfo is
   behind the IP gate here, GetTasksStatus included.
   */
  function Help(config: Configuration, command: string, ip: string): (r: Outcome<string>)
    ensures r == Thrown(CommandNotFound) <==> Resolve(command).None?
    ensures Resolve(command).Some? ==> (r.Ok? <==> Resolve(command).value == GetSessionInfo || Allowed(config, ip))
    ensures r.Thrown? && r != Thrown(CommandNotFound) ==> r == Thrown(UserNotAllowed)
    ensures r.Ok? ==> Resolve(command).Some? && r.value == Resolve(command).value.Description()
  {
    if command == "GetSessionInfo" then
      Ok("Get session info")
    else if command == "GetTasksStatus" then
      if !Allowed(config, ip) then Thrown(UserNotAllowed) else Ok("Get task status")
    else if command == "LockScheduler" then
      if !Allowed(config, ip) then Thrown(UserNotAllowed) else Ok("Lock the scheduler")
    else if command == "UnlockScheduler" then
      if !Allowed(config, ip) then Thrown(UserNotAllowed) else Ok("Unlock the scheduler")
    else if command == "StopServer" then
      if !Allowed(config, ip) then Thrown(UserNotAllowed) else Ok("Stop the server")
    else
      Thrown(CommandNotFound)
  }

  /** `usage`: Java `null` for every command, known or not, and never gated. */
  function Usage(config: Configuration, command: string, ip: string): (r: Option<string>)
    ensures r == None
  {
    None
  }

  // ---------------------------------------------------------------------------
  // What `exec` does, as a function of its inputs

  /** The change `exec` makes to its collaborators. */
  datatype Effect = Unchanged | Locked | Unlocked | StopRequested

  datatype Execution = Execution(response: Outcome<string>, effect: Effect)

  /**
   The outcome of `exec`. `tasks` is the scheduler's status list, or `None`
   while there is no scheduler (before a successful `init`), when any call on
   it throws a NullPointerException. Only the three state-changing commands
   go through the IP gate, and the gate comes before the change.
   */
  function ExecSpec(config: Configuration, command: string, ip: string, tasks: Option<seq<map<string, string>>>): (x: Execution)
    ensures x.response == Thrown(CommandNotFound) <==> Resolve(command).None?
    ensures x.effect != Unchanged ==> Allowed(config, ip) && x.response == Ok(InfoMarker)
    ensures x.response.Ok? ==> InfoMarker <= x.response.value
  {
    if command == "GetSessionInfo" then
      Execution(Ok(InfoMarker + SessionRowset), Unchanged)
    else if command == "GetTasksStatus" then
      match tasks
      case None => Execution(Thrown(NullPointerException), Unchanged)
      case Some(statuses) => Execution(Ok(InfoMarker + TasksRowset(statuses)), Unchanged)
    else if command == "LockScheduler" then
      if !Allowed(config, ip) then Execution(Thrown(UserNotAllowed), Unchanged)
      else if tasks.None? then Execution(Thrown(NullPointerException), Unchanged)
      else Execution(Ok(InfoMarker), Locked)
    else if command == "UnlockScheduler" then
      if !Allowed(config, ip) then Execution(Thrown(UserNotAllowed), Unchanged)
      else if tasks.None? then Execution(Thrown(NullPointerException), Unchanged)
      else Execution(Ok(InfoMarker), Unlocked)
    else if command == "StopServer" then
      if !Allowed(config, ip) then Execution(Thrown(UserNotAllowed), Unchanged)
      else Execution(Ok(InfoMarker), StopRequested)
    else
      Execution(Thrown(CommandNotFound), Unchanged)
  }

  /** `exec` and `help` reject exactly the same names, those outside the five commands. */
  lemma SurfacesAgreeOnNames(config: Configuration, command: string, ip: string, tasks: Option<seq<map<string, string>>>)
    ensures ExecSpec(config, command, ip, tasks).response == Thrown(CommandNotFound)
        <==> Help(config, command, ip) == Thrown(CommandNotFound)
    ensures Help(config, command, ip) == Thrown(CommandNotFound)
        <==> command !in {"GetSessionInfo", "GetTasksStatus", "LockScheduler", "UnlockScheduler", "StopServer"}
  {
  }

  /** A refused caller of LockScheduler, UnlockScheduler or StopServer changes nothing. */
  lemma DeniedCommandHasNoEffect(config: Configuration, command: string, ip: string, tasks: Option<seq<map<string, string>>>)
    requires command in {"LockScheduler", "UnlockScheduler", "StopServer"}
    requires !Allowed(config, ip)
    ensures ExecSpec(config, command, ip, tasks) == Execution(Thrown(UserNotAllowed), Unchanged)
  {
  }

  /** An admitted caller with a scheduler gets the success marker and the lock or the unlock. */
  lemma PermittedCommandTakesEffect(config: Configuration, ip: string, statuses: seq<map<string, string>>)
    requires Allowed(config, ip)
    ensures ExecSpec(config, "LockScheduler", ip, Some(statuses)) == Execution(Ok(InfoMarker), Locked)
    ensures ExecSpec(config, "UnlockScheduler", ip, Some(statuses)) == Execution(Ok(InfoMarker), Unlocked)
  {
  }

  /** StopServer never touches the scheduler: an admitted caller gets the stop request, scheduler or not. */
  lemma PermittedStopTakesEffect(config: Configuration, ip: string, tasks: Option<seq<map<string, string>>>)
    requires Allowed(config, ip)
    ensures ExecSpec(config, "StopServer", ip, tasks) == Execution(Ok(InfoMarker), StopRequested)
  {
  }

  /** The description `help` gives an admitted caller, for each of the five commands. */
  lemma HelpTexts(config: Configuration, ip: string)
    requires Allowed(config, ip)
    ensures Help(config, "GetSessionInfo", ip) == Ok("Get session info")
    ensures Help(config, "GetTasksStatus", ip) == Ok("Get task status")
    ensures Help(config, "LockScheduler", ip) == Ok("Lock the scheduler")
    ensures Help(config, "UnlockScheduler", ip) == Ok("Unlock the scheduler")
    ensures Help(config, "StopServer", ip) == Ok("Stop the server")
  {
  }

  /** GetSessionInfo is answered to everybody, with the constant `user` rowset. */
  lemma SessionInfoUngated(config: Configuration, ip: string, tasks: Option<seq<map<string, string>>>)
    ensures ExecSpec(config, "GetSessionInfo", ip, tasks) == Execution(Ok(InfoMarker + SessionRowset), Unchanged)
    ensures Help(config, "GetSessionInfo", ip) == Ok("Get session info")
  {
  }

  /**
   GetTasksStatus is not behind the gate in `exec`: every caller, whatever
   the configuration and the status list, gets the marker and the task
   rowset, and nothing changes.
   */
  lemma TasksStatusUngated(config: Configuration, ip: string, statuses: seq<map<string, string>>)
    ensures ExecSpec(config, "GetTasksStatus", ip, Some(statuses)) == Execution(Ok(InfoMarker + TasksRowset(statuses)), Unchanged)
  {
  }

  /**
   GetTasksStatus is answered by `exec` to any caller, changes nothing, and
   reads back as one ten-field row per status map when no value holds "]]>".
   */
  lemma TasksStatusResponse(config: Configuration, ip: string, statuses: seq<map<string, string>>)
    requires CdataSafeStatuses(statuses)
    ensures ExecSpec(config, "GetTasksStatus", ip, Some(statuses)).effect == Unchanged
    ensures ExecSpec(config, "GetTasksStatus", ip, Some(statuses)).response.Ok?
    ensures var out := ExecSpec(config, "GetTasksStatus", ip, Some(statuses)).response.value;
      ParseTasksRowset(out[|InfoMarker|..]) == Some(TaskTable(statuses))
  {
    TasksRowsetRoundTrip(statuses);
    var out := InfoMarker + TasksRowset(statuses);
    assert out[|InfoMarker|..] == TasksRowset(statuses);
  }

  /**
   The two surfaces gate GetTasksStatus differently: with `ips` set to ""
   a caller at "10.0.0.1" is refused its description but served the data.
   */
  lemma TasksStatusGatedOnlyInHelp(config: Configuration, statuses: seq<map<string, string>>)
    requires config == map["ips" := ""]
    ensures ExecSpec(config, "GetTasksStatus", "10.0.0.1", Some(statuses)).response.Ok?
    ensures Help(config, "GetTasksStatus", "10.0.0.1") == Thrown(UserNotAllowed)
  {
    EmptyListAdmitsOnlyEmptyAddress("10.0.0.1");
  }

  /** The `exec` loop that renders the status list row by row. */
  method RenderTasks(statuses: seq<map<string, string>>) returns (out: string)
    ensures out == TasksRowset(statuses)
  {
    var rows := "";
    for i := 0 to |statuses|
      invariant rows == TaskRows(statuses[..i])
    {
      TaskRowsAppend(statuses[..i], statuses[i]);
      assert statuses[..i + 1] == statuses[..i] + [statuses[i]];
      rows := rows + TaskRow(statuses[i]);
    }
    assert statuses[..|statuses|] == statuses;
    out := "<rowset>" + rows + "</rowset>";
  }

  // ---------------------------------------------------------------------------
  // The collaborators and the handler object

  /** The foreign task scheduler, reduced to the state the handler touches. */
  class Scheduler {
    const settings: Settings
    var started: bool
    var locked: bool
    var statuses: seq<map<string, string>>

    constructor (settings: Settings)
      ensures this.settings == settings && !started
    {
      this.settings := settings;
      started := false;
      locked := false;
      statuses := [];
    }

    method Start()
      modifies this
      ensures started && locked == old(locked) && statuses == old(statuses)
    {
      started := true;
    }

    method Lock()
      modifies this
      ensures locked && started == old(started) && statuses == old(statuses)
    {
      locked := true;
    }

    method Unlock()
      modifies this
      ensures !locked && started == old(started) && statuses == old(statuses)
    {
      locked := false;
    }

    method GetTasksStatus() returns (r: seq<map<string, string>>)
      ensures r == statuses
    {
      r := statuses;
    }
  }

  /** The foreign serving transport, reduced to whether a graceful stop was asked for. */
  class Server {
    var stopRequested: bool

    constructor ()
      ensures !stopRequested
    {
      stopRequested := false;
    }

    method GracefulStop()
      modifies this
      ensures stopRequested
    {
      stopRequested := true;
    }
  }

  /** The handler object; its one field is the scheduler `init` creates. */
  class TaskHandler {
    var scheduler: Scheduler?

    constructor ()
      ensures scheduler == null
    {
      scheduler := null;
    }

    /** The scheduler's status list, or `None` while there is no scheduler. */
    function Tasks(): Option<seq<map<string, string>>>
      reads this, scheduler
    {
      if scheduler == null then None else Some(scheduler.statuses)
    }

    /**
     `init`: on any configuration error it throws and leaves the handler as
     it was, no scheduler created or started; otherwise it creates a new
     scheduler with the validated settings and starts it.
     */
    method Init(server: Server, config: Configuration, parseFloat: string -> Option<Float>) returns (r: Outcome<()>)
      modifies this
      ensures Validate(config, parseFloat).Thrown? ==>
        r == Thrown(Validate(config, parseFloat).error) && scheduler == old(scheduler)
      ensures Validate(config, parseFloat).Ok? ==>
        && r == Ok(())
        && scheduler != null && fresh(scheduler)
        && scheduler.settings == Validate(config, parseFloat).value
        && scheduler.started
    {
      var settings := Validate(config, parseFloat);
      if settings.Thrown? {
        return Thrown(settings.error);
      }
      var s := new Scheduler(settings.value);
      s.Start();
      scheduler := s;
      r := Ok(());
    }

    /**
     `exec`: the response and the change are those of ExecSpec; the scheduler's
     status list and started flag never change, its lock flag and the
     server's stop flag change only as the effect says.
     */
    method Exec(server: Server, config: Configuration, command: string, arguments: map<string, string>, ip: string)
      returns (r: Outcome<string>)
      modifies server, scheduler
      ensures scheduler == old(scheduler)
      ensures r == ExecSpec(config, command, ip, old(Tasks())).response
      ensures var effect := ExecSpec(config, command, ip, old(Tasks())).effect;
        && server.stopRequested == (effect == StopRequested || old(server.stopRequested))
        && (scheduler != null ==>
             && scheduler.statuses == old(scheduler.statuses)
             && scheduler.started == old(scheduler.started)
             && scheduler.locked == (if effect == Locked then true
                                     else if effect == Unlocked then false
                                     else old(scheduler.locked)))
    {
      var result := InfoMarker;
      if command == "GetSessionInfo" {
        result := result + SessionRowset;
      } else if command == "GetTasksStatus" {
        if scheduler == null {
          return Thrown(NullPointerException);
        }
        var statuses := scheduler.GetTasksStatus();
        var rowset := RenderTasks(statuses);
        result := result + rowset;
      } else if command == "LockScheduler" {
        var gate := CheckIP(config, ip);
        if gate.Thrown? {
          return Thrown(gate.error);
        }
        if scheduler == null {
          return Thrown(NullPointerException);
        }
        scheduler.Lock();
      } else if command == "UnlockScheduler" {
        var gate := CheckIP(config, ip);
        if gate.Thrown? {
          return Thrown(gate.error);
        }
        if scheduler == null {
          return Thrown(NullPointerException);
        }
        scheduler.Unlock();
      } else if command == "StopServer" {
        var gate := CheckIP(config, ip);
        if gate.Thrown? {
          return Thrown(gate.error);
        }
        server.GracefulStop();
      } else {
        return Thrown(CommandNotFound);
      }
      return Ok(result);
    }
  }
}
