/**
 The response text `exec` builds: the success marker, the fixed `user`
 rowset of GetSessionInfo and the task rowset of GetTasksStatus. Field values
 are placed inside CDATA sections without any escaping, and a missing map
 entry is printed as `null`.

 The second half is a reader for the task rowset, the partner of the
 renderer: it recovers every row and field value from the text whenever no
 value contains the CDATA terminator "]]>".
 */
module Render {
  import opened Outcomes

  const InfoMarker: string := "<info><![CDATA[Done with success]]></info>"

  const CdataClose: string := "]]>"
  const FieldClose: string := "]]></field>"

  function FieldOpen(name: string): string
  {
    "<field name=\"" + name + "\"><![CDATA["
  }

  /** One `<field>` element, its value unescaped. */
  function Field(name: string, value: string): string
  {
    FieldOpen(name) + value + FieldClose
  }

  /** The fields of one row, in the order of `names`. */
  function RenderFields(names: seq<string>, values: seq<string>): string
    requires |names| == |values|
  {
    if names == [] then "" else Field(names[0], values[0]) + RenderFields(names[1..], values[1..])
  }

  const SessionFieldNames: seq<string> := ["valid", "AMIUser", "guestUser", "lastName", "firstName", "email"]
  const SessionFieldValues: seq<string> := ["true", "admin", "guest", "admin", "admin", "none"]

  /** The constant one-row `user` rowset GetSessionInfo returns. */
  const SessionRowset: string :=
    "<rowset type=\"user\">" + "<row>" + RenderFields(SessionFieldNames, SessionFieldValues) + "</row>" + "</rowset>"

  /** The ten fields of a task row, in the order they are written. */
  const TaskFieldNames: seq<string> :=
    ["id", "name", "command", "description", "commaSeparatedLocks", "running", "success", "priority", "step", "lastRunDate"]

  /** `StringBuilder.append(map.get(key))`: a missing entry prints as the text `null`. */
  function Lookup(m: map<string, string>, key: string): string
  {
    if key in m then m[key] else "null"
  }

  /** The ten values a task status map contributes to its row. */
  function TaskValues(m: map<string, string>): seq<string>
  {
    seq(|TaskFieldNames|, k requires 0 <= k < |TaskFieldNames| => Lookup(m, TaskFieldNames[k]))
  }

  /** One `<row>` element holding the fields of `values` under `names`. */
  function Row(names: seq<string>, values: seq<string>): string
    requires |names| == |values|
  {
    "<row>" + RenderFields(names, values) + "</row>"
  }

  function TaskRow(m: map<string, string>): string
  {
    Row(TaskFieldNames, TaskValues(m))
  }

  /** One row per status map, in the scheduler's order. */
  function TaskRows(statuses: seq<map<string, string>>): string
  {
    if statuses == [] then "" else TaskRow(statuses[0]) + TaskRows(statuses[1..])
  }

  /** The rowset GetTasksStatus appends after the success marker. */
  function TasksRowset(statuses: seq<map<string, string>>): string
  {
    "<rowset>" + TaskRows(statuses) + "</rowset>"
  }

  /** Appending one status map appends its row: what the rendering loop relies on. */
  lemma {:induction false} TaskRowsAppend(statuses: seq<map<string, string>>, m: map<string, string>)
    ensures TaskRows(statuses + [m]) == TaskRows(statuses) + TaskRow(m)
  {
    if statuses == [] {
      assert [] + [m] == [m];
    } else {
      assert (statuses + [m])[0] == statuses[0];
      assert (statuses + [m])[1..] == statuses[1..] + [m];
      TaskRowsAppend(statuses[1..], m);
    }
  }

  /** A missing entry and an entry holding the text `null` render alike. */
  lemma MissingFieldRendersNull(m: map<string, string>, key: string)
    requires key !in m
    ensures TaskRow(m) == TaskRow(m[key := "null"])
  {
    assert TaskValues(m) == TaskValues(m[key := "null"]);
  }

  // ---------------------------------------------------------------------------
  // Reading the task rowset back

  function StripPrefix(p: string, s: string): (r: Option<string>)
    ensures r.Some? ==> p <= s && r.value == s[|p|..]
  {
    if p <= s then Some(s[|p|..]) else None
  }

  /** The index of the first "]]>" in `s`, where a CDATA section holding `s` would end. */
  function FindCdataClose(s: string): (r: Option<nat>)
    ensures r.Some? ==> r.value + 3 <= |s| && s[r.value..r.value + 3] == CdataClose
  {
    if |s| < 3 then None
    else if s[..3] == CdataClose then Some(0)
    else match FindCdataClose(s[1..])
      case None => None
      case Some(i) => Some(i + 1)
  }

  /** `v` can stand inside a CDATA section: it holds no "]]>". */
  predicate CdataSafe(v: string)
  {
    FindCdataClose(v) == None
  }

  /** Reads one field element per name and returns the values and what follows. */
  function ParseFields(names: seq<string>, s: string): (r: Option<(seq<string>, string)>)
    ensures r.Some? ==> |r.value.0| == |names| && |r.value.1| <= |s|
  {
    if names == [] then Some(([], s))
    else match StripPrefix(FieldOpen(names[0]), s)
      case None => None
      case Some(t) =>
        match FindCdataClose(t)
        case None => None
        case Some(i) =>
          match StripPrefix(FieldClose, t[i..])
          case None => None
          case Some(u) =>
            match ParseFields(names[1..], u)
            case None => None
            case Some((values, rest)) => Some(([t[..i]] + values, rest))
  }

  /** Reads rows of the given fields up to the closing `</rowset>`. */
  function ParseRows(names: seq<string>, s: string): (r: Option<seq<seq<string>>>)
    ensures r.Some? ==> forall i :: 0 <= i < |r.value| ==> |r.value[i]| == |names|
    decreases |s|
  {
    if s == "</rowset>" then Some([])
    else match StripPrefix("<row>", s)
      case None => None
      case Some(t) =>
        match ParseFields(names, t)
        case None => None
        case Some((values, u)) =>
          match StripPrefix("</row>", u)
          case None => None
          case Some(v) =>
            match ParseRows(names, v)
            case None => None
            case Some(rows) => Some([values] + rows)
  }

  /** Reads a task rowset into its table of values. */
  function ParseTasksRowset(s: string): Option<seq<seq<string>>>
  {
    match StripPrefix("<rowset>", s)
    case None => None
    case Some(t) => ParseRows(TaskFieldNames, t)
  }

  /** The table a task rowset stands for: row i holds the ten values of status map i. */
  function TaskTable(statuses: seq<map<string, string>>): seq<seq<string>>
  {
    seq(|statuses|, i requires 0 <= i < |statuses| => TaskValues(statuses[i]))
  }

  predicate CdataSafeStatuses(statuses: seq<map<string, string>>)
  {
    forall i, k :: 0 <= i < |statuses| && 0 <= k < |TaskFieldNames| ==> CdataSafe(TaskValues(statuses[i])[k])
  }

  /** Every row of `table` has one value per name. */
  predicate Shaped(names: seq<string>, table: seq<seq<string>>)
  {
    forall i :: 0 <= i < |table| ==> |table[i]| == |names|
  }

  /** No value of `table` holds "]]>". */
  predicate SafeTable(table: seq<seq<string>>)
  {
    forall i, k :: 0 <= i < |table| && 0 <= k < |table[i]| ==> CdataSafe(table[i][k])
  }

  /** The rows of a table, one `<row>` element per row in order. */
  function Rows(names: seq<string>, table: seq<seq<string>>): string
    requires Shaped(names, table)
  {
    if table == [] then "" else Row(names, table[0]) + Rows(names, table[1..])
  }

  /** The task rows are the rows of the task table. */
  lemma {:induction false} TaskRowsAsTable(statuses: seq<map<string, string>>)
    ensures Shaped(TaskFieldNames, TaskTable(statuses))
    ensures TaskRows(statuses) == Rows(TaskFieldNames, TaskTable(statuses))
  {
    var table := TaskTable(statuses);
    if statuses != [] {
      TaskRowsAsTable(statuses[1..]);
      assert table[0] == TaskValues(statuses[0]);
      assert table[1..] == TaskTable(statuses[1..]);
    }
  }

  lemma SafeTaskTable(statuses: seq<map<string, string>>)
    requires CdataSafeStatuses(statuses)
    ensures SafeTable(TaskTable(statuses))
  {
  }

  lemma StripPrefixOf(p: string, x: string)
    ensures StripPrefix(p, p + x) == Some(x)
  {
    assert (p + x)[..|p|] == p;
    assert (p + x)[|p|..] == x;
  }

  /** A safe value followed by "]]>" ends exactly where the value ends. */
  lemma {:induction false} CdataCloseAfterSafe(v: string, x: string)
    requires CdataSafe(v) && CdataClose <= x
    ensures FindCdataClose(v + x) == Some(|v|)
  {
    var s := v + x;
    if v == [] {
      assert s == x && s[..3] == CdataClose;
    } else {
      assert s[2] != '>' || |v| >= 3 by {
        if |v| < 3 {
          assert s[2] == x[2 - |v|] == ']';
        }
      }
      assert s[..3] != CdataClose by {
        if |v| >= 3 {
          assert s[..3] == v[..3];
        }
      }
      assert CdataSafe(v[1..]);
      assert s[1..] == v[1..] + x;
      CdataCloseAfterSafe(v[1..], x);
    }
  }

  /** Reading the first field of a row: its value ends where the safe value ends. */
  lemma ParseFieldsStep(names: seq<string>, v: string, u: string)
    requires names != [] && CdataSafe(v)
    ensures ParseFields(names, FieldOpen(names[0]) + (v + (FieldClose + u))) ==
      match ParseFields(names[1..], u)
      case None => None
      case Some((values, rest)) => Some(([v] + values, rest))
  {
    var t := v + (FieldClose + u);
    StripPrefixOf(FieldOpen(names[0]), t);
    assert CdataClose <= FieldClose + u;
    CdataCloseAfterSafe(v, FieldClose + u);
    assert t[..|v|] == v && t[|v|..] == FieldClose + u;
    StripPrefixOf(FieldClose, u);
  }

  /** Regrouping a concatenation of five strings to the right. */
  lemma Regroup(a: string, b: string, c: string, d: string, e: string)
    ensures (a + b + c) + d + e == a + (b + (c + (d + e)))
  {
  }

  lemma {:induction false} ParseFieldsRoundTrip(names: seq<string>, values: seq<string>, rest: string)
    requires |names| == |values|
    requires forall k :: 0 <= k < |values| ==> CdataSafe(values[k])
    ensures ParseFields(names, RenderFields(names, values) + rest) == Some((values, rest))
  {
    if names != [] {
      var v := values[0];
      var later := RenderFields(names[1..], values[1..]);
      var tail := later + rest;
      assert RenderFields(names, values) + rest == FieldOpen(names[0]) + (v + (FieldClose + tail)) by {
        Regroup(FieldOpen(names[0]), v, FieldClose, later, rest);
      }
      assert ParseFields(names[1..], tail) == Some((values[1..], rest)) by {
        ParseFieldsRoundTrip(names[1..], values[1..], rest);
      }
      ParseFieldsStep(names, v, tail);
      assert [v] + values[1..] == values;
    } else {
      assert RenderFields(names, values) + rest == rest;
    }
  }

  /** Reading one row whose values are safe. */
  lemma ParseRowsStep(names: seq<string>, values: seq<string>, later: string)
    requires |names| == |values|
    requires forall k :: 0 <= k < |values| ==> CdataSafe(values[k])
    ensures ParseRows(names, "<row>" + (RenderFields(names, values) + ("</row>" + later))) ==
      match ParseRows(names, later)
      case None => None
      case Some(rows) => Some([values] + rows)
  {
    var x := RenderFields(names, values) + ("</row>" + later);
    var s := "<row>" + x;
    assert StripPrefix("<row>", s) == Some(x) by {
      StripPrefixOf("<row>", x);
    }
    assert ParseFields(names, x) == Some((values, "</row>" + later)) by {
      ParseFieldsRoundTrip(names, values, "</row>" + later);
    }
    assert StripPrefix("</row>", "</row>" + later) == Some(later) by {
      StripPrefixOf("</row>", later);
    }
    assert s != "</rowset>" by {
      assert s[1] == 'r';
    }
  }

  lemma {:induction false} ParseRowsRoundTrip(names: seq<string>, table: seq<seq<string>>)
    requires Shaped(names, table) && SafeTable(table)
    ensures ParseRows(names, Rows(names, table) + "</rowset>") == Some(table)
  {
    if table == [] {
      assert Rows(names, table) + "</rowset>" == "</rowset>";
    } else {
      var later := Rows(names, table[1..]) + "</rowset>";
      assert Rows(names, table) + "</rowset>" == "<row>" + (RenderFields(names, table[0]) + ("</row>" + later)) by {
        Regroup("<row>", RenderFields(names, table[0]), "</row>", Rows(names, table[1..]), "</rowset>");
      }
      assert ParseRows(names, later) == Some(table[1..]) by {
        forall i | 0 <= i < |table[1..]|
          ensures table[1..][i] == table[i + 1]
        {
        }
        ParseRowsRoundTrip(names, table[1..]);
      }
      assert forall k :: 0 <= k < |table[0]| ==> CdataSafe(table[0][k]);
      ParseRowsStep(names, table[0], later);
      assert [table[0]] + table[1..] == table;
    }
  }

  /**
   The task rowset loses nothing when no value holds "]]>": it reads back as
   exactly one row per status map, in order, each with the ten values in the
   order id, name, command, description, commaSeparatedLocks, running,
   success, priority, step, lastRunDate.
   */
  lemma TasksRowsetRoundTrip(statuses: seq<map<string, string>>)
    requires CdataSafeStatuses(statuses)
    ensures ParseTasksRowset(TasksRowset(statuses)) == Some(TaskTable(statuses))
  {
    var table := TaskTable(statuses);
    TaskRowsAsTable(statuses);
    SafeTaskTable(statuses);
    ParseRowsRoundTrip(TaskFieldNames, table);
    StripPrefixOf("<rowset>", Rows(TaskFieldNames, table) + "</rowset>");
    assert TasksRowset(statuses) == "<rowset>" + (Rows(TaskFieldNames, table) + "</rowset>");
  }

  /** A value that is exactly "]]>" ends its CDATA section early and the field no longer reads. */
  lemma TerminatorValueUnreadable(names: seq<string>, u: string)
    requires names != []
    ensures ParseFields(names, FieldOpen(names[0]) + (CdataClose + (FieldClose + u))) == None
  {
    var t := CdataClose + (FieldClose + u);
    StripPrefixOf(FieldOpen(names[0]), t);
    assert t[..3] == CdataClose;
    assert FindCdataClose(t) == Some(0);
    assert t[3] == ']' && FieldClose[3] == '<';
    assert !(FieldClose <= t[0..]);
  }

  lemma TerminatorFieldsUnreadable(names: seq<string>, values: seq<string>, tail: string)
    requires names != [] && |values| == |names| && values[0] == CdataClose
    ensures ParseFields(names, RenderFields(names, values) + tail) == None
  {
    var later := RenderFields(names[1..], values[1..]);
    var rest := later + tail;
    assert RenderFields(names, values) + tail == FieldOpen(names[0]) + (CdataClose + (FieldClose + rest)) by {
      Regroup(FieldOpen(names[0]), values[0], FieldClose, later, tail);
    }
    TerminatorValueUnreadable(names, rest);
  }

  /** A row whose first value is "]]>" does not read, whatever follows it. */
  lemma TerminatorRowUnreadable(names: seq<string>, values: seq<string>, later: string)
    requires names != [] && |values| == |names| && values[0] == CdataClose
    ensures ParseRows(names, Row(names, values) + later) == None
  {
    var x := RenderFields(names, values) + ("</row>" + later);
    assert Row(names, values) + later == "<row>" + x by {
      Regroup("<row>", RenderFields(names, values), "</row>", later, "");
      assert later + "" == later;
    }
    TerminatorFieldsUnreadable(names, values, "</row>" + later);
    StripPrefixOf("<row>", x);
    assert ("<row>" + x)[1] == 'r';
  }

  /**
   Because values are not escaped, a status whose `id` is "]]>" yields a
   rowset that no longer reads back: the round trip above needs its
   precondition.
   */
  lemma UnescapedValueBreaksRowset(m: map<string, string>)
    requires "id" in m && m["id"] == CdataClose
    ensures ParseTasksRowset(TasksRowset([m])) == None
  {
    var values := TaskValues(m);
    assert values[0] == CdataClose;
    TerminatorRowUnreadable(TaskFieldNames, values, "</rowset>");
    assert TaskRows([m]) == TaskRow(m) + TaskRows([]);
    assert TasksRowset([m]) == "<rowset>" + (Row(TaskFieldNames, values) + "</rowset>");
    StripPrefixOf("<rowset>", Row(TaskFieldNames, values) + "</rowset>");
  }

  /** A value without ']' is always safe inside CDATA. */
  lemma {:induction false} NoBracketSafe(v: string)
    requires forall i :: 0 <= i < |v| ==> v[i] != ']'
    ensures CdataSafe(v)
  {
    if |v| >= 3 {
      assert v[0] != CdataClose[0];
      NoBracketSafe(v[1..]);
    }
  }

  /** The GetSessionInfo rowset reads back as its six constant values. */
  lemma SessionFieldsRead()
    ensures ParseFields(SessionFieldNames, RenderFields(SessionFieldNames, SessionFieldValues) + "</row></rowset>")
         == Some((SessionFieldValues, "</row></rowset>"))
  {
    forall k | 0 <= k < |SessionFieldValues|
      ensures CdataSafe(SessionFieldValues[k])
    {
      NoBracketSafe(SessionFieldValues[k]);
    }
    ParseFieldsRoundTrip(SessionFieldNames, SessionFieldValues, "</row></rowset>");
  }
}
