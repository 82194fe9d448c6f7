/**
 Startup validation performed by the handler's `init` before it creates the
 task scheduler: four required keys, then `max_tasks`, then `compression`.
 */
module Config {
  import opened Outcomes
  import opened Numbers

  type Configuration = map<string, string>

  const MaxTasksDefault: int := 10
  const CompressionDefault: Float := Finite(2.0)

  /** The keys `init` insists on; `exclusion_server_url` is not among them. */
  const RequiredKeys: seq<string> := ["jdbc_url", "router_user", "router_pass", "server_name"]

  /** Every key `init` reads. */
  const ReadKeys: set<string> := {"jdbc_url", "router_user", "router_pass", "server_name", "max_tasks", "compression"}

  /** The arguments the scheduler is constructed with. */
  datatype Settings = Settings(
    jdbcUrl: string,
    routerUser: string,
    routerPass: string,
    serverName: string,
    maxTasks: int,
    compression: Float)

  predicate HasRequiredKeys(config: Configuration)
  {
    forall k :: k in RequiredKeys ==> k in config
  }

  /**
   The checks of `init`, in the order it makes them. `parseFloat` stands for
   `Float.parseFloat`, `None` being its NumberFormatException.
   */
  function Validate(config: Configuration, parseFloat: string -> Option<Float>): (r: Outcome<Settings>)
    ensures r == Thrown(ConfigError) <==> !HasRequiredKeys(config)
    ensures r.Ok? ==> HasRequiredKeys(config)
    ensures r.Ok? ==> r.value.jdbcUrl == config["jdbc_url"] && r.value.routerUser == config["router_user"]
    ensures r.Ok? ==> r.value.routerPass == config["router_pass"] && r.value.serverName == config["server_name"]
    ensures r.Ok? ==> r.value.maxTasks >= 1 && !BelowOne(r.value.compression)
    ensures r.Ok? ==> if "max_tasks" in config then ParseInt(config["max_tasks"]) == Some(r.value.maxTasks)
                      else r.value.maxTasks == MaxTasksDefault
    ensures r.Ok? ==> if "compression" in config then parseFloat(config["compression"]) == Some(r.value.compression)
                      else r.value.compression == CompressionDefault
  {
    if !("jdbc_url" in config && "router_user" in config && "router_pass" in config && "server_name" in config) then
      Thrown(ConfigError)
    else
      var maxTasks := if "max_tasks" in config then ParseInt(config["max_tasks"]) else Some(MaxTasksDefault);
      if maxTasks.None? then Thrown(NumberFormatException(config["max_tasks"]))
      else if maxTasks.value < 1 then Thrown(MaxTasksOutOfRange)
      else
        var compression := if "compression" in config then parseFloat(config["compression"]) else Some(CompressionDefault);
        if compression.None? then Thrown(NumberFormatException(config["compression"]))
        else if BelowOne(compression.value) then Thrown(CompressionOutOfRange)
        else Ok(Settings(config["jdbc_url"], config["router_user"], config["router_pass"], config["server_name"],
                         maxTasks.value, compression.value))
  }

  /** A `max_tasks` that parses below 1 is rejected, whatever `compression` holds. */
  lemma MaxTasksBelowOneRejected(config: Configuration, parseFloat: string -> Option<Float>)
    requires HasRequiredKeys(config) && "max_tasks" in config
    requires ParseInt(config["max_tasks"]).Some? && ParseInt(config["max_tasks"]).value < 1
    ensures Validate(config, parseFloat) == Thrown(MaxTasksOutOfRange)
  {
    assert "jdbc_url" in RequiredKeys && "router_user" in RequiredKeys;
    assert "router_pass" in RequiredKeys && "server_name" in RequiredKeys;
  }

  /**
   Validation succeeds exactly when the required keys are there, `max_tasks`
   is absent or parses to at least 1 and `compression` is absent or parses to
   a value that is not below 1.0.
   */
  lemma ValidateAccepts(config: Configuration, parseFloat: string -> Option<Float>)
    ensures Validate(config, parseFloat).Ok? <==>
      && HasRequiredKeys(config)
      && ("max_tasks" in config ==> ParseInt(config["max_tasks"]).Some? && ParseInt(config["max_tasks"]).value >= 1)
      && ("compression" in config ==> parseFloat(config["compression"]).Some? && !BelowOne(parseFloat(config["compression"]).value))
  {
    if HasRequiredKeys(config) {
      assert "jdbc_url" in RequiredKeys && "router_user" in RequiredKeys;
      assert "router_pass" in RequiredKeys && "server_name" in RequiredKeys;
    }
  }

  /** With only the four required keys, the scheduler gets 10 tasks and compression 2.0. */
  lemma DefaultsApply(config: Configuration, parseFloat: string -> Option<Float>)
    requires HasRequiredKeys(config) && "max_tasks" !in config && "compression" !in config
    ensures Validate(config, parseFloat) == Ok(Settings(config["jdbc_url"], config["router_user"],
      config["router_pass"], config["server_name"], 10, Finite(2.0)))
  {
    assert "jdbc_url" in RequiredKeys && "router_user" in RequiredKeys;
    assert "router_pass" in RequiredKeys && "server_name" in RequiredKeys;
  }

  /** Keys other than the six `init` reads, `exclusion_server_url` included, change nothing. */
  lemma OtherKeysIgnored(config: Configuration, parseFloat: string -> Option<Float>, key: string, value: string)
    requires key !in ReadKeys
    ensures Validate(config[key := value], parseFloat) == Validate(config, parseFloat)
  {
    var updated := config[key := value];
    forall k | k in ReadKeys
      ensures (k in updated <==> k in config) && (k in config ==> updated[k] == config[k])
    {
    }
  }

  /** A NaN `compression` passes the range check, since NaN < 1.0 is false in Java. */
  lemma NaNCompressionAccepted(config: Configuration, parseFloat: string -> Option<Float>)
    requires HasRequiredKeys(config) && "max_tasks" !in config
    requires "compression" in config && parseFloat(config["compression"]) == Some(NaN)
    ensures Validate(config, parseFloat).Ok? && Validate(config, parseFloat).value.compression == NaN
  {
    assert "jdbc_url" in RequiredKeys && "router_user" in RequiredKeys;
    assert "router_pass" in RequiredKeys && "server_name" in RequiredKeys;
  }
}
