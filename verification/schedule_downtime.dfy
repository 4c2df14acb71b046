/**
 * satprep_schedule_downtime: read a snapshot report, pick the hosts that need a
 * reboot and are monitored, and post one downtime command per host to the
 * monitoring web interface (Nagios, Icinga, Thruk or Shinken `cmd.cgi`).
 *
 * The HTTP exchange is left abstract: the requests the script sends are returned,
 * and the server's answer to each is a parameter, as is the clock.
 */
module ScheduleDowntime {
  import opened Common
  import opened Strings
  import opened Ordering
  import opened Report

  // ---------------------------------------------------------------------------
  // Report rows

  /** The report columns the reader looks up. */
  const RepCols: seq<string> := ["hostname", "errata_reboot", "system_monitoring"]

  datatype Columns = Columns(hostname: int, reboot: int, monitoring: int)

  function ColumnsOf(headers: seq<string>): Columns {
    Columns(ColumnIndex(headers, "hostname"), ColumnIndex(headers, "errata_reboot"),
            ColumnIndex(headers, "system_monitoring"))
  }

  /** `row[cols["hostname"]]`, which raises IndexError past the end of the row. */
  function HostCell(row: seq<string>, i: int): Pick {
    match At(row, i)
    case None => Crash
    case Some(h) => Add(h)
  }

  /**
   * The rule for one row: without intelligence every row's host name is taken;
   * otherwise only rows whose monitoring flag is "1" and whose reboot column is
   * non-empty, both columns existing, tested left to right.
   */
  function RowPick(c: Columns, row: seq<string>, noIntelligence: bool): Pick {
    if noIntelligence then HostCell(row, c.hostname)
    else match Flag(row, c.monitoring)
      case None => Crash
      case Some(monitored) =>
        if !monitored || !Enabled(c.reboot) then Skip
        else match At(row, c.reboot)
          case None => Crash
          case Some(reboot) => if reboot == "" then Skip else HostCell(row, c.hostname)
  }

  /** Without intelligence a row yields its host name, or IndexError when it has none. */
  lemma RowPickAll(c: Columns, row: seq<string>)
    ensures RowPick(c, row, true) == if 0 <= c.hostname < |row| then Add(row[c.hostname]) else Crash
  {
  }

  /** In intelligent mode a row is added exactly when both columns exist and the rule holds. */
  lemma RowPickIntelligent(c: Columns, row: seq<string>)
    ensures RowPick(c, row, false).Add? <==>
              && Enabled(c.monitoring) && 0 <= c.monitoring < |row| && row[c.monitoring] == "1"
              && Enabled(c.reboot) && 0 <= c.reboot < |row| && row[c.reboot] != ""
              && 0 <= c.hostname < |row|
    ensures RowPick(c, row, false).Add? ==> RowPick(c, row, false).name == row[c.hostname]
  {
  }

  /** A report without one of the two rule columns selects no row in intelligent mode. */
  lemma MissingColumnSelectsNothing(headers: seq<string>, row: seq<string>)
    requires "system_monitoring" !in headers || "errata_reboot" !in headers
    ensures RowPick(ColumnsOf(headers), row, false) != Crash ==> RowPick(ColumnsOf(headers), row, false) == Skip
  {
  }

  /** One turn of the row loop. */
  function Step(acc: Option<seq<string>>, c: Columns, row: seq<string>, noIntelligence: bool)
    : Option<seq<string>>
  {
    match acc
    case None => None
    case Some(hosts) =>
      var p := RowPick(c, row, noIntelligence);
      if p == Crash then None else Some(hosts + NameOf(p))
  }

  /** The host names the row loop appends, or None when some row raises IndexError. */
  function Collected(c: Columns, rows: seq<seq<string>>, noIntelligence: bool): Option<seq<string>> {
    if rows == [] then Some([])
    else Step(Collected(c, rows[..|rows| - 1], noIntelligence), c, rows[|rows| - 1], noIntelligence)
  }

  /** A row that raises IndexError ends the run, whatever follows it. */
  lemma {:induction false} CollectedCrashStays(c: Columns, rows: seq<seq<string>>, n: nat,
                                              noIntelligence: bool)
    requires n <= |rows| && Collected(c, rows[..n], noIntelligence).None?
    ensures Collected(c, rows, noIntelligence).None?
    decreases |rows|
  {
    if n < |rows| {
      var init := rows[..|rows| - 1];
      assert init[..n] == rows[..n];
      CollectedCrashStays(c, init, n, noIntelligence);
    } else {
      assert rows[..n] == rows;
    }
  }

  /** Without a crash, a name is collected exactly when some row's rule added it. */
  lemma {:induction false} CollectedExactly(c: Columns, rows: seq<seq<string>>, noIntelligence: bool, x: string)
    requires Collected(c, rows, noIntelligence).Some?
    ensures x in Collected(c, rows, noIntelligence).value <==>
              exists k :: 0 <= k < |rows| && RowPick(c, rows[k], noIntelligence) == Add(x)
    decreases |rows|
  {
    if rows != [] {
      var init := rows[..|rows| - 1];
      var last := |rows| - 1;
      var acc := Collected(c, init, noIntelligence);
      CollectedExactly(c, init, noIntelligence, x);
      var p := RowPick(c, rows[last], noIntelligence);
      assert Collected(c, rows, noIntelligence).value == acc.value + NameOf(p);
      if x in acc.value {
        var k :| 0 <= k < |init| && RowPick(c, init[k], noIntelligence) == Add(x);
        assert rows[k] == init[k];
      } else if p != Add(x) {
        forall k | 0 <= k < |rows| ensures RowPick(c, rows[k], noIntelligence) != Add(x) {
          if k < last {
            assert rows[k] == init[k];
          }
        }
      }
    }
  }

  /** The hosts `readFile` selects from a report, before tidying; None where it raises IndexError. */
  function Selected(header: string, rows: seq<seq<string>>, noIntelligence: bool): Option<seq<string>> {
    Collected(ColumnsOf(HeaderFields(header)), rows, noIntelligence)
  }

  /** `sorted(set(xs))`, then the header's own `hostname` entry removed if present. */
  function Tidy(xs: seq<string>): seq<string> {
    var s := SortedSet(xs);
    if "hostname" in s then RemoveFirst(s, "hostname") else s
  }

  /** The target list is sorted, has no duplicates, and holds every selected name but `hostname`. */
  lemma TidyExactly(xs: seq<string>)
    ensures StrictlySorted(Tidy(xs))
    ensures forall i, j :: 0 <= i < j < |Tidy(xs)| ==> Tidy(xs)[i] != Tidy(xs)[j]
    ensures forall y :: y in Tidy(xs) <==> y in xs && y != "hostname"
  {
    var s := SortedSet(xs);
    if "hostname" in s {
      RemoveFirstSorted(s, "hostname");
    }
    SortedDistinct(Tidy(xs));
  }

  // ---------------------------------------------------------------------------
  // The downtime request

  datatype Options = Options(
    url: string, author: string, hours: string, comment: string, userAgent: string,
    noAuth: bool, noIntelligence: bool, dryrun: bool)

  const DefaultAgent := "satprep Toolkit (https://github.com/stdevel/satprep)"

  /** The User-Agent header: the user's value when one is given, the toolkit's own otherwise. */
  function UserAgent(given: string): (r: string)
    ensures given != "" ==> r == given
    ensures given == "" ==> r == DefaultAgent
    ensures r != ""
  {
    if |given| > 0 then given else DefaultAgent
  }

  /** The start and end time of one downtime, as the clock gave them for that request. */
  datatype Window = Window(start: string, end: string)

  /** The fields of the `cmd.cgi` form. */
  datatype Field =
    | CmdTyp | CmdMod | Host | ComData | Trigger | Fixed | Hours | Minutes
    | StartTime | EndTime | BtnSubmit | ComAuthor | ChildOptions

  /** The name a field has on the wire. */
  function FieldName(f: Field): string {
    match f
    case CmdTyp => "cmd_typ"
    case CmdMod => "cmd_mod"
    case Host => "host"
    case ComData => "com_data"
    case Trigger => "trigger"
    case Fixed => "fixed"
    case Hours => "hours"
    case Minutes => "minutes"
    case StartTime => "start_time"
    case EndTime => "end_time"
    case BtnSubmit => "btnSubmit"
    case ComAuthor => "com_author"
    case ChildOptions => "childoptions"
  }

  /**
   * The command fields every downtime form carries whatever the host: command 55
   * (schedule a host downtime), mode 2 (commit), a fixed downtime without trigger
   * and without child hosts.
   */
  predicate FixedCommand(p: map<Field, string>) {
    && CmdTyp in p && p[CmdTyp] == "55"
    && CmdMod in p && p[CmdMod] == "2"
    && Trigger in p && p[Trigger] == "0"
    && Fixed in p && p[Fixed] == "1"
    && Minutes in p && p[Minutes] == "0"
    && ChildOptions in p && p[ChildOptions] == "0"
    && BtnSubmit in p && p[BtnSubmit] == "Commit"
  }

  /** The form posted for one host. */
  function Payload(host: string, opts: Options, w: Window): map<Field, string> {
    map[CmdTyp := "55", CmdMod := "2", Host := host, ComData := opts.comment,
        Trigger := "0", Fixed := "1", Hours := opts.hours, Minutes := "0",
        StartTime := w.start, EndTime := w.end, BtnSubmit := "Commit",
        ComAuthor := opts.author, ChildOptions := "0"]
  }

  /** Every form is a fixed downtime command for its host, with the user's hours, comment and name. */
  lemma PayloadFields(host: string, opts: Options, w: Window)
    ensures var p := Payload(host, opts, w);
            && FixedCommand(p)
            && Host in p && p[Host] == host
            && ComData in p && p[ComData] == opts.comment
            && Hours in p && p[Hours] == opts.hours
            && ComAuthor in p && p[ComAuthor] == opts.author
  {
  }

  datatype Request = Request(url: string, userAgent: string, payload: map<Field, string>, basicAuth: bool)

  function RequestFor(host: string, opts: Options, w: Window): Request {
    Request(opts.url + "/cgi-bin/cmd.cgi", UserAgent(opts.userAgent), Payload(host, opts, w), !opts.noAuth)
  }

  datatype Response = Response(status: int, text: string)

  /** How the script reads the answer: a bad status, an error page, or success. */
  datatype Verdict = HttpStatus(code: int) | PageError | Scheduled

  function Classify(r: Response): (v: Verdict)
    ensures v.HttpStatus? <==> r.status != 200
    ensures v.HttpStatus? ==> v.code == r.status
    ensures v == PageError <==> r.status == 200 && Contains(Lower(r.text), "error")
    ensures v == Scheduled <==> r.status == 200 && !Contains(Lower(r.text), "error")
  {
    if r.status != 200 then HttpStatus(r.status)
    else if Contains(Lower(r.text), "error") then PageError
    else Scheduled
  }

  /** Whatever the case of its letters, an `error` in a page answered with 200 marks a failure. */
  lemma ErrorInAnyCase(r: Response, i: int)
    requires r.status == 200 && 0 <= i && i + 5 <= |r.text| && Lower(r.text[i..i + 5]) == "error"
    ensures Classify(r) == PageError
  {
    var low := Lower(r.text);
    assert low[i..i + 5] == Lower(r.text[i..i + 5]);
    ContainsAt(low, "error", i);
  }

  // ---------------------------------------------------------------------------
  // The script

  /** The column table of the report reader, filled from the header fields. */
  method ReadColumns(headers: seq<string>) returns (c: Columns)
    ensures c == ColumnsOf(headers)
  {
    var cols := ColumnIndexes(headers, RepCols);
    assert RepCols[0] in RepCols && RepCols[1] in RepCols && RepCols[2] in RepCols;
    c := Columns(cols["hostname"], cols["errata_reboot"], cols["system_monitoring"]);
  }

  /** The row loop of `readFile`; None where a row raises IndexError. */
  method CollectRows(c: Columns, rows: seq<seq<string>>, noIntelligence: bool) returns (r: Option<seq<string>>)
    ensures r == Collected(c, rows, noIntelligence)
  {
    var hosts: seq<string> := [];
    var i := 0;
    while i < |rows|
      invariant 0 <= i <= |rows|
      invariant Collected(c, rows[..i], noIntelligence) == Some(hosts)
    {
      var row := rows[i];
      assert rows[..i + 1][..i] == rows[..i];
      assert Collected(c, rows[..i + 1], noIntelligence) == Step(Some(hosts), c, row, noIntelligence);
      var p := RowPick(c, row, noIntelligence);
      if p == Crash {
        CollectedCrashStays(c, rows, i + 1, noIntelligence);
        return None;
      }
      ghost var before := hosts;
      if p.Add? {
        hosts := hosts + [p.name];
      } else {
        assert hosts == before + NameOf(p);
      }
      assert Step(Some(before), c, row, noIntelligence) == Some(hosts);
      i := i + 1;
    }
    assert rows[..i] == rows;
    r := Some(hosts);
  }

  /** The script's global: the hosts to schedule. */
  class Scheduler {
    var targetHosts: seq<string>

    constructor ()
      ensures targetHosts == []
    {
      targetHosts := [];
    }

    /**
     * `readFile`: `header` is the report's first line and `rows` what the CSV reader
     * yields (the header row included). False where a row raises IndexError; the
     * script dies there and the list is left as it was.
     */
    method ReadFile(header: string, rows: seq<seq<string>>, noIntelligence: bool) returns (ok: bool)
      modifies this
      ensures ok <==> Selected(header, rows, noIntelligence).Some?
      ensures ok ==> targetHosts == Tidy(old(targetHosts) + Selected(header, rows, noIntelligence).value)
      ensures !ok ==> targetHosts == old(targetHosts)
    {
      var c := ReadColumns(HeaderFields(header));
      var picked := CollectRows(c, rows, noIntelligence);
      if picked.None? {
        return false;
      }
      var sorted := SortedSet(targetHosts + picked.value);
      if "hostname" in sorted {
        sorted := RemoveFirst(sorted, "hostname");
      }
      targetHosts := sorted;
      ok := true;
    }

    /**
     * `setDowntime`: in a dry run nothing is sent; otherwise one request per host, in
     * list order, each answered by `respond` and classified. `window(k)` is what the
     * clock gives for the k-th request.
     */
    method SetDowntime(opts: Options, window: nat -> Window, respond: Request -> Response)
      returns (sent: seq<Request>, verdicts: seq<Verdict>)
      ensures opts.dryrun ==> sent == [] && verdicts == []
      ensures !opts.dryrun ==> |sent| == |targetHosts|
      ensures forall k :: 0 <= k < |sent| ==> sent[k] == RequestFor(targetHosts[k], opts, window(k))
      ensures |verdicts| == |sent|
      ensures forall k :: 0 <= k < |sent| ==> verdicts[k] == Classify(respond(sent[k]))
    {
      sent, verdicts := [], [];
      if opts.dryrun {
        return;
      }
      var i := 0;
      while i < |targetHosts|
        invariant 0 <= i <= |targetHosts|
        invariant |sent| == i && |verdicts| == i
        invariant forall k :: 0 <= k < i ==> sent[k] == RequestFor(targetHosts[k], opts, window(k))
        invariant forall k :: 0 <= k < i ==> verdicts[k] == Classify(respond(sent[k]))
      {
        var request := RequestFor(targetHosts[i], opts, window(i));
        var answer := respond(request);
        sent := sent + [request];
        verdicts := verdicts + [Classify(answer)];
        i := i + 1;
      }
    }
  }

  /**
   * `main`: read the report, then schedule: one request per selected host, in
   * sorted order (see `TidyExactly` and `PayloadFields` for what that list and
   * each form hold).
   */
  method Run(opts: Options, header: string, rows: seq<seq<string>>,
             window: nat -> Window, respond: Request -> Response)
    returns (outcome: Outcome, sent: seq<Request>, verdicts: seq<Verdict>)
    ensures outcome != Exited
    ensures outcome == Crashed <==> Selected(header, rows, opts.noIntelligence).None?
    ensures outcome == Crashed || opts.dryrun ==> sent == []
    ensures outcome == Completed && !opts.dryrun ==>
              |sent| == |Tidy(Selected(header, rows, opts.noIntelligence).value)|
    ensures outcome == Completed ==>
              forall k :: 0 <= k < |sent| ==>
                sent[k] == RequestFor(Tidy(Selected(header, rows, opts.noIntelligence).value)[k], opts, window(k))
    ensures |verdicts| == |sent|
    ensures forall k :: 0 <= k < |sent| ==> verdicts[k] == Classify(respond(sent[k]))
  {
    var s := new Scheduler();
    var ok := s.ReadFile(header, rows, opts.noIntelligence);
    if !ok {
      return Crashed, [], [];
    }
    assert [] + Selected(header, rows, opts.noIntelligence).value
        == Selected(header, rows, opts.noIntelligence).value;
    sent, verdicts := s.SetDowntime(opts, window, respond);
    outcome := Completed;
  }
}
