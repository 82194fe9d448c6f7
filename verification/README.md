# AMI task server handler

A model of the request handler of the AMI task server, the Java class
`net.hep.ami.task.Main`. Here it is the Dafny class `Handler.TaskHandler`.
The handler has these entry points:

- **`init`** checks the startup configuration and then creates and starts
  the task scheduler.
- **`exec`** runs one of five commands: GetSessionInfo, GetTasksStatus,
  LockScheduler, UnlockScheduler and StopServer. It answers with a
  CDATA-laden XML text.
- **`help`** describes one of the five commands.
- **`usage`** describes none of them.
- **`checkIP`** is the allowlist gate behind the privileged commands. It
  splits the `ips` configuration value with the pattern `[^0-9\.]` and
  looks for the caller's address among the pieces.

The project is split into modules:

- `Outcomes`: a Java call's result is a value or a thrown exception, and
  the exception messages the handler uses.
- `Numbers`: `Integer.parseInt`, and the comparison of a `float` against
  1.0, where NaN never compares below.
- `Config`: the checks `init` makes, as a function from the configuration
  to the scheduler's settings or an exception.
- `Access`: the semantics of Java's `Pattern.split` for a one-character
  pattern (limit 0), and the allowlist gate together with its search loop.
  The lemmas characterise which addresses pass: a non-empty address passes
  exactly when it is a maximal run of digits and dots in the list.
- `Render`: the response text. It also holds a reader for the task rowset,
  the partner of the renderer: whenever no value holds "]]>", the reader
  recovers every row and every value.
- `Handler`:
  - the command names;
  - `help` and `usage`;
  - `exec`'s outcome as a function of its inputs;
  - the rendering loop;
  - the handler object with `Init` and `Exec`, proved against those
    functions.

  The scheduler and the server are reduced to the state the handler
  touches: started, locked, the status list and a stop request.

Where the code does something a reader might not expect, the model follows
the code:

- Only four configuration keys are required: `jdbc_url`, `router_user`,
  `router_pass` and `server_name`. `exclusion_server_url` is never read.
- `exec` does not check the caller's address for GetTasksStatus, but `help`
  does.
- An empty `ips` value splits to `[""]`, so it admits the empty address. It
  does not deny everybody.
- `usage` returns `null` for every command, including unknown ones.
- StopServer only asks the server for a graceful stop. The scheduler is not
  stopped or joined.
- A `compression` value that parses to NaN is accepted.
- A second `init` simply replaces the scheduler.

## Model

| member | source | states |
|---|---|---|
| Numbers.ParseInt | src/main/java/net/hep/ami/task/Main.java:55 | a parsed value fits a Java `int`, and the text starts with a digit or a sign, a negative value with '-' |
| Numbers.BelowOne | src/main/java/net/hep/ami/task/Main.java:68 | definition of `compression < 1.0` on a Java float: true for finite values below 1.0 and for negative infinity, false for NaN; characterised by Config.NaNCompressionAccepted |
| Numbers.ParseIntRoundTrip | src/main/java/net/hep/ami/task/Main.java:55 | every Java `int` printed in decimal parses back to itself |
| Config.HasRequiredKeys | src/main/java/net/hep/ami/task/Main.java:34-49 | definition: the four keys of `RequiredKeys` (`jdbc_url`, `router_user`, `router_pass`, `server_name`) are present; Config.Validate throws "config error" exactly when it fails |
| Config.Validate | src/main/java/net/hep/ami/task/Main.java:34-71 | "config error" exactly when a required key is missing; on success the settings carry the four strings unchanged, `max_tasks` parsed (or 10) and at least 1, and `compression` parsed (or 2.0) and not below 1.0 |
| Config.ValidateAccepts | src/main/java/net/hep/ami/task/Main.java:34-71 | validation succeeds iff the required keys are present, `max_tasks` is absent or parses to at least 1, and `compression` is absent or parses to a value not below 1.0 |
| Config.MaxTasksBelowOneRejected | src/main/java/net/hep/ami/task/Main.java:53-60 | a `max_tasks` parsing below 1 throws "`max_tasks` out of range" whatever `compression` holds |
| Config.DefaultsApply | src/main/java/net/hep/ami/task/Main.java:53-66 | with neither optional key the settings get `MaxTasksDefault`, 10 (line 13), and `CompressionDefault`, 2.0 (line 15) |
| Config.OtherKeysIgnored | src/main/java/net/hep/ami/task/Main.java:34-66 | adding or changing any key other than the six `init` reads, `exclusion_server_url` included, leaves the result unchanged |
| Config.NaNCompressionAccepted | src/main/java/net/hep/ami/task/Main.java:66-71 | a `compression` parsing to NaN passes the range check and reaches the scheduler |
| Access.IsAddressChar | src/main/java/net/hep/ami/task/Main.java:17 | definition of the characters the pattern `[^0-9\.]` does not match: digits and the dot; characterised by Access.FieldsAddressOnly |
| Access.Fields | src/main/java/net/hep/ami/task/Main.java:274 | every piece between two separator characters, empty ones included, at least one; characterised by Access.FieldsRoundTrip and Access.FieldsAreMaximalRuns |
| Access.Split | src/main/java/net/hep/ami/task/Main.java:274 | definition of `s_ipSplitPattern.split(ips)`: the whole input when nothing matches, otherwise the fields without the trailing empty ones; characterised by Access.SplitOfFields, Access.SplitKeepsNonEmpty and Access.SplitAddressOnly |
| Access.Allowed | src/main/java/net/hep/ami/task/Main.java:265-286 | definition of checkIP's decision: no `ips` key, or the address is an entry of the split; characterised by Access.CheckIP and Access.AllowedIffMaximalRun |
| Access.StripTrailingEmpty | src/main/java/net/hep/ami/task/Main.java:274 | the result is a prefix of the fields whose last element is non-empty, and every dropped field is empty |
| Access.Listed | src/main/java/net/hep/ami/task/Main.java:276-282 | the search loop answers true iff the address equals some entry |
| Access.CheckIP | src/main/java/net/hep/ami/task/Main.java:261-289 | returns normally iff the address is allowed, and always when `ips` is absent; otherwise throws "User not allowed" |
| Access.FieldsRoundTrip | src/main/java/net/hep/ami/task/Main.java:274 | there is one more field than separator characters, and interleaving them again gives back the input |
| Access.FieldsAddressOnly | src/main/java/net/hep/ami/task/Main.java:17 | every field consists of digits and dots only |
| Access.SplitAddressOnly | src/main/java/net/hep/ami/task/Main.java:17 | every entry of the split consists of digits and dots only |
| Access.FieldsOfAddress | src/main/java/net/hep/ami/task/Main.java:274 | a string without separator characters is a single field |
| Access.SplitKeepsNonEmpty | src/main/java/net/hep/ami/task/Main.java:274 | a non-empty string is in the split iff it is one of the fields: only empty fields are dropped |
| Access.FirstFieldLeads | src/main/java/net/hep/ami/task/Main.java:17 | the first field is the longest prefix of digits and dots |
| Access.LeadingRun | src/main/java/net/hep/ami/task/Main.java:17 | a maximal run starting at 0 is exactly the non-empty first field |
| Access.FieldIsMaximalRun | src/main/java/net/hep/ami/task/Main.java:17 | every non-empty field is a maximal run of digits and dots of the input, not at its start for fields after the first |
| Access.MaximalRunIsField | src/main/java/net/hep/ami/task/Main.java:17 | every maximal run of digits and dots of the input is a field |
| Access.FieldsAreMaximalRuns | src/main/java/net/hep/ami/task/Main.java:17 | a non-empty string is a field iff it is a maximal run of digits and dots |
| Access.AbsentListAllowsAll | src/main/java/net/hep/ami/task/Main.java:265-270 | without an `ips` key every address passes |
| Access.AllowedIffMaximalRun | src/main/java/net/hep/ami/task/Main.java:274-286 | with an `ips` key a non-empty address passes iff it equals a maximal run of digits and dots of the list |
| Access.NonAddressRejected | src/main/java/net/hep/ami/task/Main.java:274-286 | with an `ips` key an address holding any other character, such as ':', never passes |
| Access.FieldsPrefix | src/main/java/net/hep/ami/task/Main.java:274 | digits and dots up to a separator form the first field, and the rest is split on its own |
| Access.SplitPair | src/main/java/net/hep/ami/task/Main.java:274 | two addresses joined by one separator split into exactly those two |
| Access.SplitCommaList | src/main/java/net/hep/ami/task/Main.java:274 | "10.0.0.1,10.0.0.2" splits into its two addresses |
| Access.CommaListExample | src/main/java/net/hep/ami/task/Main.java:265-286 | that list admits "10.0.0.1" and refuses "10.0.0.3" |
| Access.SplitOfEmpty | src/main/java/net/hep/ami/task/Main.java:274 | the empty list splits to `[""]` |
| Access.SplitOfSeparatorOnly | src/main/java/net/hep/ami/task/Main.java:274 | a lone separator splits to no entries at all |
| Access.FieldsAppendSeparator | src/main/java/net/hep/ami/task/Main.java:274 | a separator at the end adds one empty field |
| Access.StripCons | src/main/java/net/hep/ami/task/Main.java:274 | a field in front of a non-empty field is never dropped |
| Access.StripAppendEmpty | src/main/java/net/hep/ami/task/Main.java:274 | one more empty field at the end is dropped too |
| Access.SplitOfFields | src/main/java/net/hep/ami/task/Main.java:274 | the split of a non-empty list is its fields without the trailing empty ones |
| Access.SplitKeepsFieldBeforeSeparator | src/main/java/net/hep/ami/task/Main.java:274 | leading and interior fields, empty ones included, are kept while a non-empty field follows |
| Access.SplitIgnoresTrailingSeparator | src/main/java/net/hep/ami/task/Main.java:274 | a separator at the end of a non-empty list does not change the split |
| Access.EmptyListAdmitsOnlyEmptyAddress | src/main/java/net/hep/ami/task/Main.java:265-286 | an empty `ips` admits the empty address and nobody else |
| Render.Lookup | src/main/java/net/hep/ami/task/Main.java:121-130 | definition of `append(map.get(key))`: the entry, or the text `null` when there is none; characterised by Render.MissingFieldRendersNull |
| Render.TaskValues | src/main/java/net/hep/ami/task/Main.java:121-130 | definition: the ten values of a status map in the order id, name, command, description, commaSeparatedLocks, running, success, priority, step, lastRunDate; characterised by Render.TaskRowsAsTable |
| Render.RenderFields | src/main/java/net/hep/ami/task/Main.java:121-130 | definition: one `<field>` element per name, its value in an unescaped CDATA section; characterised by Render.ParseFieldsRoundTrip |
| Render.TaskRow | src/main/java/net/hep/ami/task/Main.java:120-131 | definition of one `<row>` element for a status map; characterised by Render.TaskRowsAsTable |
| Render.TaskRows | src/main/java/net/hep/ami/task/Main.java:118-133 | definition: one row per status map, in order; characterised by Render.TaskRowsAppend and Render.TaskRowsAsTable |
| Render.TasksRowset | src/main/java/net/hep/ami/task/Main.java:116-135 | definition of the GetTasksStatus rowset; characterised by Render.TasksRowsetRoundTrip and Handler.RenderTasks |
| Render.TaskRowsAppend | src/main/java/net/hep/ami/task/Main.java:118-133 | one more status map appends exactly its row |
| Render.MissingFieldRendersNull | src/main/java/net/hep/ami/task/Main.java:121-130 | a missing entry renders as the text `null` |
| Render.TaskRowsAsTable | src/main/java/net/hep/ami/task/Main.java:118-133 | the task rows are the rows of a table with ten values per status map, in order |
| Render.ParseFieldsRoundTrip | src/main/java/net/hep/ami/task/Main.java:121-130 | the fields of a row read back as their values, whenever no value holds "]]>" |
| Render.ParseRowsRoundTrip | src/main/java/net/hep/ami/task/Main.java:118-135 | the rows read back as the table, one row per element, in order |
| Render.TasksRowsetRoundTrip | src/main/java/net/hep/ami/task/Main.java:116-135 | the task rowset reads back as one ten-value row per status map, in order, when no value holds "]]>" |
| Render.TerminatorValueUnreadable | src/main/java/net/hep/ami/task/Main.java:121 | a value equal to "]]>" ends its CDATA section early and the field does not read |
| Render.TerminatorFieldsUnreadable | src/main/java/net/hep/ami/task/Main.java:121-130 | fields whose first value is "]]>" do not read |
| Render.TerminatorRowUnreadable | src/main/java/net/hep/ami/task/Main.java:120-131 | a row whose first value is "]]>" does not read |
| Render.UnescapedValueBreaksRowset | src/main/java/net/hep/ami/task/Main.java:116-135 | a status whose `id` is "]]>" gives a rowset that no longer reads: values are not escaped |
| Render.SessionFieldsRead | src/main/java/net/hep/ami/task/Main.java:97-106 | the six `user` fields read back as true, admin, guest, admin, admin, none |
| Handler.Resolve | src/main/java/net/hep/ami/task/Main.java:95-176 | a name resolves to the command it names, and to nothing else |
| Handler.Help | src/main/java/net/hep/ami/task/Main.java:184-249 | "Command not found" iff the name is not one of the five; a known command is described iff it is GetSessionInfo or the address is allowed, and then with that command's own text (Command.Description, lines 194, 205, 216, 227, 238); the only other error is "User not allowed" |
| Handler.HelpTexts | src/main/java/net/hep/ami/task/Main.java:192-239 | an allowed caller gets "Get session info", "Get task status", "Lock the scheduler", "Unlock the scheduler" and "Stop the server" for the five commands |
| Handler.Usage | src/main/java/net/hep/ami/task/Main.java:254-257 | `null` for every command and address, never an exception |
| Handler.ExecSpec | src/main/java/net/hep/ami/task/Main.java:85-179 | "Command not found" iff the name is not one of the five; a command changes something only for an allowed address and then answers with the bare success marker `InfoMarker` (line 89); every answer starts with the marker |
| Handler.SurfacesAgreeOnNames | src/main/java/net/hep/ami/task/Main.java:85-249 | `exec` and `help` reject exactly the same names, those outside the five |
| Handler.DeniedCommandHasNoEffect | src/main/java/net/hep/ami/task/Main.java:142-169 | a refused LockScheduler, UnlockScheduler or StopServer throws "User not allowed" and changes nothing |
| Handler.PermittedCommandTakesEffect | src/main/java/net/hep/ami/task/Main.java:142-158 | an allowed caller with a scheduler gets the marker and the lock or the unlock |
| Handler.PermittedStopTakesEffect | src/main/java/net/hep/ami/task/Main.java:164-169 | an allowed caller of StopServer gets the marker and the stop request, whether or not there is a scheduler |
| Handler.SessionInfoUngated | src/main/java/net/hep/ami/task/Main.java:95-108 | GetSessionInfo answers every caller with the marker and the constant `user` rowset `SessionRowset` (lines 97-107), and `help` describes it to every caller (lines 192-195) |
| Handler.TasksStatusUngated | src/main/java/net/hep/ami/task/Main.java:114-136 | GetTasksStatus answers every caller, for every configuration and status list, with the marker and the task rowset, and changes nothing |
| Handler.TasksStatusResponse | src/main/java/net/hep/ami/task/Main.java:114-136 | when no value holds "]]>", the text GetTasksStatus answers after the marker reads back as one ten-field row per status map, in order |
| Handler.TasksStatusGatedOnlyInHelp | src/main/java/net/hep/ami/task/Main.java:114-203 | with `ips` set to "", a caller at 10.0.0.1 is served GetTasksStatus by `exec` but refused its description by `help` |
| Handler.RenderTasks | src/main/java/net/hep/ami/task/Main.java:116-135 | the rendering loop produces exactly the task rowset of the status list |
| Handler.Scheduler.constructor | src/main/java/net/hep/ami/task/Main.java:77 | a new scheduler holds the validated settings and is not yet started |
| Handler.Scheduler.Start | src/main/java/net/hep/ami/task/Main.java:77 | starting sets the started flag and nothing else |
| Handler.Scheduler.Lock | src/main/java/net/hep/ami/task/Main.java:146 | locking sets the lock flag and nothing else |
| Handler.Scheduler.Unlock | src/main/java/net/hep/ami/task/Main.java:157 | unlocking clears the lock flag and nothing else |
| Handler.Scheduler.GetTasksStatus | src/main/java/net/hep/ami/task/Main.java:118 | returns the scheduler's status list |
| Handler.Server.GracefulStop | src/main/java/net/hep/ami/task/Main.java:168 | records the stop request |
| Handler.TaskHandler.constructor | src/main/java/net/hep/ami/task/Main.java:21 | a new handler has no scheduler |
| Handler.TaskHandler.Tasks | src/main/java/net/hep/ami/task/Main.java:21 | definition: the status list of `m_scheduler`, or none while it is null; Handler.ExecSpec answers a NullPointerException for the commands that call the scheduler then |
| Handler.TaskHandler.Init | src/main/java/net/hep/ami/task/Main.java:26-80 | on any configuration error it throws that error and keeps the old scheduler, none created or started; otherwise it holds a new, started scheduler with exactly the validated settings |
| Handler.TaskHandler.Exec | src/main/java/net/hep/ami/task/Main.java:85-179 | the response is ExecSpec's for the scheduler's status list before the call; the status list and started flag never change; the lock flag and the stop flag change only as ExecSpec's effect says |

## Left out

- `main`, which parses the port, starts and joins the server, logs and exits, is process plumbing and is not part of this model.
- The scheduler and the server are foreign classes. They are reduced to a started flag, a lock flag, a status list and a stop flag. Their own threads, persistence and networking are not modelled, and neither is a status list that changes under the handler.
- `Float.parseFloat` is a parameter of `Config.Validate` and `Handler.TaskHandler.Init`: a function from text to an optional float. Float rounding is not modelled; a float is compared to 1.0 as a value or NaN or an infinity.
- Numbers.ParseInt: accepts only ASCII digits, whereas Java's `Integer.parseInt` also accepts other Unicode decimal digits.
- Exceptions from the scheduler's constructor or from `start()` are not modelled; both calls are taken to succeed.
- Java `null` is not modelled for the arguments: a `null` configuration map, command or address cannot be represented, so the NullPointerExceptions they would cause are absent. A configuration key mapped to `null` reads back from `config.get` as `null`, just as a missing key does. `init` and `checkIP` treat it the same way, and the model treats it as absent.
- Concurrency is not modelled: concurrent requests, atomic lock and unlock, consistent snapshots and shutdown ordering are not in this code.
- The `arguments` map of `exec` and the `server` argument of `init` are unused by the code, and unused in the model too.
- XML escaping: the code does none, and neither does the model. `Render.UnescapedValueBreaksRowset` shows the consequence.
