/**
 * satprep_prepare_maintenance: read a snapshot report, pick the hosts that need a
 * monitoring downtime and the VMs that need a snapshot, then either schedule
 * downtimes and snapshots or verify that they exist.
 *
 * A host entry may name its own monitoring or virtualisation endpoint as
 * `host@uri:credential`; everything else goes to the endpoint given on the command
 * line. The downtime and snapshot services are left abstract: the actions the script
 * requests are returned as a log, and their answers in verify mode are parameters.
 */
module PrepareMaintenance {
  import opened Common
  import opened Strings
  import opened Ordering
  import opened Report

  // ---------------------------------------------------------------------------
  // Host specs

  /** A host entry split into the host itself and the optional endpoint it names. */
  datatype HostSpec = HostSpec(host: string, uri: string, cred: string)

  /**
   * The slicing the three action loops share: with both an `@` and a `:` present,
   * the host is what precedes the first `@`, the URI what lies between that `@` and
   * the last `:`, the credential what follows that `:`.
   */
  function ParseSpec(s: string): (r: HostSpec)
    ensures '@' in s && ':' in s ==>
              && r.host == s[..IndexOf(s, '@')] && '@' !in r.host
              && r.cred == s[RFind(s, ':') + 1..] && ':' !in r.cred
    ensures !('@' in s && ':' in s) ==> r == HostSpec(s, "", "")
  {
    if '@' in s && ':' in s then
      var at := IndexOf(s, '@');
      var colon := RFind(s, ':');
      HostSpec(Slice(s, 0, at), Slice(s, at + 1, colon), Slice(s, colon + 1, |s|))
    else HostSpec(s, "", "")
  }

  /**
   * Writing `h@u:c` and parsing it again gives the three parts back, whatever `u`
   * holds, as long as the host has no `@` and the credential no `:`.
   */
  lemma ParseSpecRoundTrip(h: string, u: string, c: string)
    requires '@' !in h && ':' !in c
    ensures ParseSpec(h + "@" + u + ":" + c) == HostSpec(h, u, c)
  {
    var s := h + "@" + u + ":" + c;
    var colon := |h| + 1 + |u|;
    assert s[..|h|] == h && s[|h|] == '@';
    assert s[colon + 1..] == c && s[colon] == ':';
    assert s[|h| + 1..colon] == u;
    IndexOfIs(s, '@', |h|);
    RFindIs(s, ':', colon);
  }

  /** The other direction: when the first `@` precedes the last `:`, the parts spell the entry. */
  lemma ParseSpecReassembles(s: string)
    requires '@' in s && ':' in s && IndexOf(s, '@') < RFind(s, ':')
    ensures var p := ParseSpec(s); s == p.host + "@" + p.uri + ":" + p.cred
  {
    var at := IndexOf(s, '@');
    var colon := RFind(s, ':');
    var p := ParseSpec(s);
    assert p == HostSpec(s[..at], s[at + 1..colon], s[colon + 1..]);
    CutTwice(s, at, colon);
  }

  lemma CutTwice(s: string, i: int, j: int)
    requires 0 <= i < j < |s|
    ensures s == s[..i] + [s[i]] + s[i + 1..j] + [s[j]] + s[j + 1..]
  {
  }

  /**
   * A `:` that only occurs before the first `@` leaves the URI empty, so the entry
   * falls back to the configured endpoint under the name that precedes the `@`.
   */
  lemma ParseSpecColonFirst(s: string)
    requires '@' in s && ':' in s && RFind(s, ':') < IndexOf(s, '@')
    ensures ParseSpec(s).uri == "" && EndpointOf(ParseSpec(s)) == Configured
  {
  }

  /** Where a request for one host entry goes. */
  datatype Endpoint =
    | Configured                       // the URL or libvirt URI from the command line
    | Own(uri: string, cred: string)   // the endpoint the entry names, with its credential file

  /** The entry's own endpoint is used only when both its URI and its credential are non-empty. */
  function EndpointOf(p: HostSpec): (e: Endpoint)
    ensures e.Own? <==> p.uri != "" && p.cred != ""
    ensures e.Own? ==> e.uri == p.uri && e.cred == p.cred
  {
    if p.uri != "" && p.cred != "" then Own(p.uri, p.cred) else Configured
  }

  // ---------------------------------------------------------------------------
  // Report rows

  /** The report columns the reader looks up, in the order its table lists them. */
  const RepCols: seq<string> := ["hostname", "errata_reboot", "system_monitoring",
    "system_monitoring_name", "system_virt", "system_virt_snapshot", "system_virt_vmname"]

  /** Entries dropped from both host lists after de-duplication. */
  const Blacklist: seq<string> := ["hostname", "system_monitoring_name", "system_virt_vmname"]

  datatype Columns = Columns(
    hostname: int, reboot: int, monitoring: int, monitoringName: int,
    virt: int, snapshot: int, vmName: int)

  function ColumnsOf(headers: seq<string>): Columns {
    Columns(
      ColumnIndex(headers, "hostname"), ColumnIndex(headers, "errata_reboot"),
      ColumnIndex(headers, "system_monitoring"), ColumnIndex(headers, "system_monitoring_name"),
      ColumnIndex(headers, "system_virt"), ColumnIndex(headers, "system_virt_snapshot"),
      ColumnIndex(headers, "system_virt_vmname"))
  }

  /** The custom name when its column exists and the cell is non-empty, the host name otherwise. */
  function Named(row: seq<string>, nameCol: int, hostCol: int): Pick {
    if Enabled(nameCol) then
      match At(row, nameCol)
      case None => Crash
      case Some(v) =>
        if v != "" then Add(v)
        else match At(row, hostCol) case None => Crash case Some(h) => Add(h)
    else match At(row, hostCol) case None => Crash case Some(h) => Add(h)
  }

  lemma NamePrecedence(row: seq<string>, nameCol: int, hostCol: int)
    ensures Enabled(nameCol) && 0 <= nameCol < |row| && row[nameCol] != "" ==>
              Named(row, nameCol, hostCol) == Add(row[nameCol])
    ensures (!Enabled(nameCol) || (0 <= nameCol < |row| && row[nameCol] == "")) ==>
              Named(row, nameCol, hostCol) == (if 0 <= hostCol < |row| then Add(row[hostCol]) else Crash)
    ensures Named(row, nameCol, hostCol) == Crash <==>
              if Enabled(nameCol) && 0 <= nameCol < |row| && row[nameCol] != "" then false
              else if Enabled(nameCol) && !(0 <= nameCol < |row|) then true
              else !(0 <= hostCol < |row|)
  {
  }

  /**
   * One selection rule: without intelligence every row is taken, otherwise only
   * rows where both flag columns exist and hold "1", tested left to right.
   */
  function Select(row: seq<string>, flagA: int, flagB: int, nameCol: int, hostCol: int,
                  noIntelligence: bool): Pick
  {
    if noIntelligence then Named(row, nameCol, hostCol)
    else match Flag(row, flagA)
      case None => Crash
      case Some(a) =>
        if !a then Skip
        else match Flag(row, flagB)
          case None => Crash
          case Some(b) => if b then Named(row, nameCol, hostCol) else Skip
  }

  /** In intelligent mode a row is added exactly when both flags are set and a name can be read. */
  lemma SelectIntelligent(row: seq<string>, flagA: int, flagB: int, nameCol: int, hostCol: int)
    ensures Select(row, flagA, flagB, nameCol, hostCol, false).Add? <==>
              && Enabled(flagA) && At(row, flagA) == Some("1")
              && Enabled(flagB) && At(row, flagB) == Some("1")
              && Named(row, nameCol, hostCol).Add?
    ensures Select(row, flagA, flagB, nameCol, hostCol, false).Add? ==>
              Select(row, flagA, flagB, nameCol, hostCol, false) == Named(row, nameCol, hostCol)
  {
  }

  /** A flag column missing from the header switches its rule off for every row. */
  lemma MissingFlagSkips(row: seq<string>, headers: seq<string>, flag: string, flagB: int,
                         nameCol: int, hostCol: int)
    requires flag !in headers
    ensures Select(row, ColumnIndex(headers, flag), flagB, nameCol, hostCol, false) == Skip
  {
  }

  function DowntimePick(c: Columns, row: seq<string>, noIntelligence: bool): Pick {
    Select(row, c.monitoring, c.reboot, c.monitoringName, c.hostname, noIntelligence)
  }

  function SnapshotPick(c: Columns, row: seq<string>, noIntelligence: bool): Pick {
    Select(row, c.virt, c.snapshot, c.vmName, c.hostname, noIntelligence)
  }

  datatype Hosts = Hosts(downtime: seq<string>, snapshot: seq<string>)

  /** One turn of the row loop: both rules on one row, or None when either raises IndexError. */
  function Step(acc: Option<Hosts>, c: Columns, row: seq<string>, noIntelligence: bool): Option<Hosts> {
    match acc
    case None => None
    case Some(h) =>
      var d := DowntimePick(c, row, noIntelligence);
      var s := SnapshotPick(c, row, noIntelligence);
      if d == Crash || s == Crash then None
      else Some(Hosts(h.downtime + NameOf(d), h.snapshot + NameOf(s)))
  }

  /** The names the row loop appends, or None when some row raises IndexError. */
  function Collected(c: Columns, rows: seq<seq<string>>, noIntelligence: bool): Option<Hosts> {
    if rows == [] then Some(Hosts([], []))
    else Step(Collected(c, rows[..|rows| - 1], noIntelligence), c, rows[|rows| - 1], noIntelligence)
  }

  /** A row that raises IndexError ends the run, whatever follows it. */
  lemma {:induction false} CollectedCrashStays(c: Columns, rows: seq<seq<string>>, n: nat,
                                              noIntelligence: bool)
    requires n <= |rows| && Collected(c, rows[..n], noIntelligence).None?
    ensures Collected(c, rows, noIntelligence).None?
    decreases |rows|
  {
    if n < |rows| {
      var init := rows[..|rows| - 1];
      assert init[..n] == rows[..n];
      CollectedCrashStays(c, init, n, noIntelligence);
    } else {
      assert rows[..n] == rows;
    }
  }

  /** Without a crash, no row raised IndexError. */
  lemma {:induction false} CollectedNoCrash(c: Columns, rows: seq<seq<string>>, noIntelligence: bool, k: int)
    requires Collected(c, rows, noIntelligence).Some? && 0 <= k < |rows|
    ensures DowntimePick(c, rows[k], noIntelligence) != Crash
    ensures SnapshotPick(c, rows[k], noIntelligence) != Crash
    decreases |rows|
  {
    if k < |rows| - 1 {
      var init := rows[..|rows| - 1];
      assert init[k] == rows[k];
      CollectedNoCrash(c, init, noIntelligence, k);
    }
  }

  /** The rule for one of the two lists: snapshots when `snapshot`, downtimes otherwise. */
  function RulePick(c: Columns, row: seq<string>, noIntelligence: bool, snapshot: bool): Pick {
    if snapshot then SnapshotPick(c, row, noIntelligence) else DowntimePick(c, row, noIntelligence)
  }

  function ListOf(h: Hosts, snapshot: bool): seq<string> {
    if snapshot then h.snapshot else h.downtime
  }

  /** Without a crash, a name is collected exactly when the rule added it for some row. */
  lemma {:induction false} CollectedExactly(c: Columns, rows: seq<seq<string>>, noIntelligence: bool,
                                           snapshot: bool, x: string)
    requires Collected(c, rows, noIntelligence).Some?
    ensures x in ListOf(Collected(c, rows, noIntelligence).value, snapshot) <==>
              exists k :: 0 <= k < |rows| && RulePick(c, rows[k], noIntelligence, snapshot) == Add(x)
    decreases |rows|
  {
    if rows != [] {
      var init := rows[..|rows| - 1];
      var last := |rows| - 1;
      var acc := Collected(c, init, noIntelligence);
      CollectedExactly(c, init, noIntelligence, snapshot, x);
      var p := RulePick(c, rows[last], noIntelligence, snapshot);
      assert ListOf(Collected(c, rows, noIntelligence).value, snapshot) == ListOf(acc.value, snapshot) + NameOf(p);
      if x in ListOf(acc.value, snapshot) {
        var k :| 0 <= k < |init| && RulePick(c, init[k], noIntelligence, snapshot) == Add(x);
        assert rows[k] == init[k];
      } else if p != Add(x) {
        forall k | 0 <= k < |rows| ensures RulePick(c, rows[k], noIntelligence, snapshot) != Add(x) {
          if k < last {
            assert rows[k] == init[k];
          }
        }
      }
    }
  }

  // ---------------------------------------------------------------------------
  // De-duplication and the blacklist

  /** `for entry in bl: if entry in s: s.remove(entry)`. */
  function RemoveListed(s: seq<string>, bl: seq<string>): seq<string> {
    if bl == [] then s
    else
      var t := RemoveListed(s, bl[..|bl| - 1]);
      var e := bl[|bl| - 1];
      if e in t then RemoveFirst(t, e) else t
  }

  lemma {:induction false} RemoveListedSorted(s: seq<string>, bl: seq<string>)
    requires StrictlySorted(s)
    ensures StrictlySorted(RemoveListed(s, bl))
    ensures forall y :: y in RemoveListed(s, bl) <==> y in s && y !in bl
    decreases |bl|
  {
    if bl != [] {
      var init := bl[..|bl| - 1];
      RemoveListedSorted(s, init);
      var t := RemoveListed(s, init);
      var e := bl[|bl| - 1];
      assert bl == init + [e];
      if e in t {
        RemoveFirstSorted(t, e);
      }
    }
  }

  /** The host list `readFile` leaves: `sorted(set(xs))` minus the blacklist entries. */
  function Tidy(xs: seq<string>): seq<string> {
    RemoveListed(SortedSet(xs), Blacklist)
  }

  /** The tidied list is sorted, has no duplicates, and holds exactly the non-blacklisted names. */
  lemma TidyExactly(xs: seq<string>)
    ensures StrictlySorted(Tidy(xs))
    ensures forall i, j :: 0 <= i < j < |Tidy(xs)| ==> Tidy(xs)[i] != Tidy(xs)[j]
    ensures forall y :: y in Tidy(xs) <==> y in xs && y !in Blacklist
  {
    RemoveListedSorted(SortedSet(xs), Blacklist);
    SortedDistinct(Tidy(xs));
  }

  // ---------------------------------------------------------------------------
  // Actions

  datatype Action =
    | ScheduleDowntime(endpoint: Endpoint, host: string, hours: string, comment: string,
                       userAgent: string, noAuth: bool, remove: bool)
    | CreateSnapshot(endpoint: Endpoint, vm: string, name: string, comment: string, remove: bool)

  datatype Options = Options(
    noIntelligence: bool, verifyOnly: bool, dryrun: bool, tidy: bool,
    skipMonitoring: bool, skipSnapshot: bool,
    hours: string, comment: string, userAgent: string, noAuth: bool)

  /** The snapshot every action and check uses: the report's date followed by `_satprep`. */
  function SnapshotName(prefix: string): string {
    prefix + "_satprep"
  }

  function DowntimeCall(spec: string, opts: Options): Action {
    var p := ParseSpec(spec);
    ScheduleDowntime(EndpointOf(p), p.host, opts.hours, opts.comment, opts.userAgent, opts.noAuth, opts.tidy)
  }

  function SnapshotCall(spec: string, prefix: string, opts: Options): Action {
    var p := ParseSpec(spec);
    CreateSnapshot(EndpointOf(p), p.host, SnapshotName(prefix), opts.comment, opts.tidy)
  }

  function DowntimeCalls(hosts: seq<string>, opts: Options): seq<Action> {
    if hosts == [] then []
    else DowntimeCalls(hosts[..|hosts| - 1], opts) + [DowntimeCall(hosts[|hosts| - 1], opts)]
  }

  function SnapshotCalls(hosts: seq<string>, prefix: string, opts: Options): seq<Action> {
    if hosts == [] then []
    else SnapshotCalls(hosts[..|hosts| - 1], prefix, opts) + [SnapshotCall(hosts[|hosts| - 1], prefix, opts)]
  }

  /** One downtime request per entry, in list order, for the host the entry names. */
  lemma {:induction false} DowntimeCallsPerHost(hosts: seq<string>, opts: Options)
    ensures |DowntimeCalls(hosts, opts)| == |hosts|
    ensures forall k :: 0 <= k < |hosts| ==>
              && DowntimeCalls(hosts, opts)[k].ScheduleDowntime?
              && DowntimeCalls(hosts, opts)[k].host == ParseSpec(hosts[k]).host
              && DowntimeCalls(hosts, opts)[k].endpoint == EndpointOf(ParseSpec(hosts[k]))
              && DowntimeCalls(hosts, opts)[k].remove == opts.tidy
    decreases |hosts|
  {
    if hosts != [] {
      DowntimeCallsPerHost(hosts[..|hosts| - 1], opts);
    }
  }

  /** One snapshot request per entry, in list order, all under the same snapshot name. */
  lemma {:induction false} SnapshotCallsPerHost(hosts: seq<string>, prefix: string, opts: Options)
    ensures |SnapshotCalls(hosts, prefix, opts)| == |hosts|
    ensures forall k :: 0 <= k < |hosts| ==>
              && SnapshotCalls(hosts, prefix, opts)[k].CreateSnapshot?
              && SnapshotCalls(hosts, prefix, opts)[k].vm == ParseSpec(hosts[k]).host
              && SnapshotCalls(hosts, prefix, opts)[k].endpoint == EndpointOf(ParseSpec(hosts[k]))
              && SnapshotCalls(hosts, prefix, opts)[k].name == SnapshotName(prefix)
              && SnapshotCalls(hosts, prefix, opts)[k].remove == opts.tidy
    decreases |hosts|
  {
    if hosts != [] {
      SnapshotCallsPerHost(hosts[..|hosts| - 1], prefix, opts);
    }
  }

  /** An entry `h@u:c` is handled on its own endpoint `u` with credential `c`, under the name `h`. */
  lemma OwnEndpointUsed(h: string, u: string, c: string, opts: Options)
    requires '@' !in h && ':' !in c && u != "" && c != ""
    ensures DowntimeCall(h + "@" + u + ":" + c, opts).endpoint == Own(u, c)
    ensures DowntimeCall(h + "@" + u + ":" + c, opts).host == h
  {
    ParseSpecRoundTrip(h, u, c);
  }

  /** An entry without `@` is handled on the configured endpoint under its own name. */
  lemma PlainEntryUsesConfigured(h: string, opts: Options)
    requires '@' !in h
    ensures DowntimeCall(h, opts).endpoint == Configured
    ensures DowntimeCall(h, opts).host == h
  {
  }

  /** One line of the verify log: the status, a `;`, the host, a newline. */
  function StatusLine(ok: bool, good: string, bad: string, host: string): string {
    (if ok then good else bad) + ";" + host + "\n"
  }

  function MonitoringLines(hosts: seq<string>, inDowntime: (Endpoint, string) -> bool): seq<string> {
    if hosts == [] then []
    else
      var p := ParseSpec(hosts[|hosts| - 1]);
      MonitoringLines(hosts[..|hosts| - 1], inDowntime)
        + [StatusLine(inDowntime(EndpointOf(p), p.host), "MONOK", "MONCRIT", p.host)]
  }

  function SnapshotLines(hosts: seq<string>, name: string,
                         hasSnapshot: (Endpoint, string, string) -> bool): seq<string> {
    if hosts == [] then []
    else
      var p := ParseSpec(hosts[|hosts| - 1]);
      SnapshotLines(hosts[..|hosts| - 1], name, hasSnapshot)
        + [StatusLine(hasSnapshot(EndpointOf(p), p.host, name), "SNAPOK", "SNAPCRIT", p.host)]
  }

  /**
   * Read back with `split(";")`, a status line gives its status and the host
   * (followed by the newline), provided the host holds no `;`.
   */
  lemma StatusLineParses(ok: bool, good: string, bad: string, host: string)
    requires ';' !in good && ';' !in bad && ';' !in host
    ensures Split(StatusLine(ok, good, bad, host), ';') == [if ok then good else bad, host + "\n"]
  {
    var status := if ok then good else bad;
    assert StatusLine(ok, good, bad, host) == status + [';'] + (host + "\n");
    SplitTwo(status, host + "\n", ';');
  }

  /** Exactly one line per downtime entry, in order, `MONOK` when the host is in downtime. */
  lemma {:induction false} MonitoringLinesPerHost(hosts: seq<string>, inDowntime: (Endpoint, string) -> bool)
    ensures |MonitoringLines(hosts, inDowntime)| == |hosts|
    ensures forall k :: 0 <= k < |hosts| ==>
              var p := ParseSpec(hosts[k]);
              MonitoringLines(hosts, inDowntime)[k]
                == StatusLine(inDowntime(EndpointOf(p), p.host), "MONOK", "MONCRIT", p.host)
    decreases |hosts|
  {
    if hosts != [] {
      MonitoringLinesPerHost(hosts[..|hosts| - 1], inDowntime);
    }
  }

  /** Exactly one line per snapshot entry, in order, `SNAPOK` when the snapshot exists. */
  lemma {:induction false} SnapshotLinesPerHost(hosts: seq<string>, name: string,
                                               hasSnapshot: (Endpoint, string, string) -> bool)
    ensures |SnapshotLines(hosts, name, hasSnapshot)| == |hosts|
    ensures forall k :: 0 <= k < |hosts| ==>
              var p := ParseSpec(hosts[k]);
              SnapshotLines(hosts, name, hasSnapshot)[k]
                == StatusLine(hasSnapshot(EndpointOf(p), p.host, name), "SNAPOK", "SNAPCRIT", p.host)
    decreases |hosts|
  {
    if hosts != [] {
      SnapshotLinesPerHost(hosts[..|hosts| - 1], name, hasSnapshot);
    }
  }

  // ---------------------------------------------------------------------------
  // Loops

  /** The row loop of `readFile`; None where a row raises IndexError. */
  method CollectRows(c: Columns, rows: seq<seq<string>>, noIntelligence: bool) returns (r: Option<Hosts>)
    ensures r == Collected(c, rows, noIntelligence)
  {
    var down: seq<string> := [];
    var snap: seq<string> := [];
    var i := 0;
    while i < |rows|
      invariant 0 <= i <= |rows|
      invariant Collected(c, rows[..i], noIntelligence) == Some(Hosts(down, snap))
    {
      var row := rows[i];
      assert rows[..i + 1][..i] == rows[..i];
      assert Collected(c, rows[..i + 1], noIntelligence)
          == Step(Some(Hosts(down, snap)), c, row, noIntelligence);
      var d := DowntimePick(c, row, noIntelligence);
      var s := SnapshotPick(c, row, noIntelligence);
      if d == Crash || s == Crash {
        CollectedCrashStays(c, rows, i + 1, noIntelligence);
        return None;
      }
      ghost var before := Hosts(down, snap);
      if d.Add? {
        down := down + [d.name];
      } else {
        assert down == before.downtime + NameOf(d);
      }
      if s.Add? {
        snap := snap + [s.name];
      } else {
        assert snap == before.snapshot + NameOf(s);
      }
      assert Step(Some(before), c, row, noIntelligence) == Some(Hosts(down, snap));
      i := i + 1;
    }
    assert rows[..i] == rows;
    r := Some(Hosts(down, snap));
  }

  /** The column table of the report reader, filled from the header fields. */
  method ReadColumns(headers: seq<string>) returns (c: Columns)
    ensures c == ColumnsOf(headers)
  {
    var cols := ColumnIndexes(headers, RepCols);
    assert RepCols[0] in RepCols && RepCols[1] in RepCols && RepCols[2] in RepCols && RepCols[3] in RepCols;
    assert RepCols[4] in RepCols && RepCols[5] in RepCols && RepCols[6] in RepCols;
    c := Columns(
      cols["hostname"], cols["errata_reboot"], cols["system_monitoring"],
      cols["system_monitoring_name"], cols["system_virt"], cols["system_virt_snapshot"],
      cols["system_virt_vmname"]);
  }

  /** The blacklist loop, applied to both lists at once. */
  method DropBlacklisted(down: seq<string>, snap: seq<string>) returns (down': seq<string>, snap': seq<string>)
    ensures down' == RemoveListed(down, Blacklist) && snap' == RemoveListed(snap, Blacklist)
  {
    down', snap' := down, snap;
    var i := 0;
    while i < |Blacklist|
      invariant 0 <= i <= |Blacklist|
      invariant down' == RemoveListed(down, Blacklist[..i])
      invariant snap' == RemoveListed(snap, Blacklist[..i])
    {
      var entry := Blacklist[i];
      assert Blacklist[..i + 1][..i] == Blacklist[..i];
      if entry in down' {
        down' := RemoveFirst(down', entry);
      }
      if entry in snap' {
        snap' := RemoveFirst(snap', entry);
      }
      i := i + 1;
    }
    assert Blacklist[..i] == Blacklist;
  }

  /** The script's globals: the two host lists and the snapshot date prefix. */
  class Maintenance {
    var downtimeHosts: seq<string>
    var snapshotHosts: seq<string>
    var prefix: string

    constructor ()
      ensures downtimeHosts == [] && snapshotHosts == [] && prefix == ""
    {
      downtimeHosts := [];
      snapshotHosts := [];
      prefix := "";
    }

    /**
     * `readFile`: `ctime` is the report's creation date, `header` its first line and
     * `rows` what the CSV reader yields (the header row included). False where a row
     * raises IndexError; the script dies there and the lists are left as they were.
     */
    method ReadFile(ctime: string, header: string, rows: seq<seq<string>>, noIntelligence: bool)
      returns (ok: bool)
      modifies this
      ensures prefix == ctime
      ensures ok <==> Collected(ColumnsOf(HeaderFields(header)), rows, noIntelligence).Some?
      ensures ok ==>
                var h := Collected(ColumnsOf(HeaderFields(header)), rows, noIntelligence).value;
                downtimeHosts == Tidy(old(downtimeHosts) + h.downtime) &&
                snapshotHosts == Tidy(old(snapshotHosts) + h.snapshot)
      ensures !ok ==> downtimeHosts == old(downtimeHosts) && snapshotHosts == old(snapshotHosts)
    {
      prefix := ctime;
      ghost var expected := Collected(ColumnsOf(HeaderFields(header)), rows, noIntelligence);
      var c := ReadColumns(HeaderFields(header));
      var picked := CollectRows(c, rows, noIntelligence);
      assert picked == expected;
      if picked.None? {
        return false;
      }
      var down := SortedSet(downtimeHosts + picked.value.downtime);
      var snap := SortedSet(snapshotHosts + picked.value.snapshot);
      var down', snap' := DropBlacklisted(down, snap);
      downtimeHosts, snapshotHosts := down', snap';
      ok := true;
    }

    /** `setDowntimes`: returns early on an empty list; a dry run requests nothing. */
    method SetDowntimes(opts: Options) returns (wentHome: bool, calls: seq<Action>)
      ensures wentHome <==> downtimeHosts == []
      ensures calls == if wentHome || opts.dryrun then [] else DowntimeCalls(downtimeHosts, opts)
    {
      calls := [];
      if downtimeHosts == [] {
        return true, [];
      }
      wentHome := false;
      var i := 0;
      while i < |downtimeHosts|
        invariant 0 <= i <= |downtimeHosts|
        invariant calls == if opts.dryrun then [] else DowntimeCalls(downtimeHosts[..i], opts)
      {
        assert downtimeHosts[..i + 1][..i] == downtimeHosts[..i];
        if !opts.dryrun {
          calls := calls + [DowntimeCall(downtimeHosts[i], opts)];
        }
        i := i + 1;
      }
      assert downtimeHosts[..i] == downtimeHosts;
    }

    /** `createSnapshots`: returns early on an empty list; a dry run requests nothing. */
    method CreateSnapshots(opts: Options) returns (wentHome: bool, calls: seq<Action>)
      ensures wentHome <==> snapshotHosts == []
      ensures calls == if wentHome || opts.dryrun then [] else SnapshotCalls(snapshotHosts, prefix, opts)
    {
      calls := [];
      if snapshotHosts == [] {
        return true, [];
      }
      wentHome := false;
      var i := 0;
      while i < |snapshotHosts|
        invariant 0 <= i <= |snapshotHosts|
        invariant calls == if opts.dryrun then [] else SnapshotCalls(snapshotHosts[..i], prefix, opts)
      {
        assert snapshotHosts[..i + 1][..i] == snapshotHosts[..i];
        if !opts.dryrun {
          calls := calls + [SnapshotCall(snapshotHosts[i], prefix, opts)];
        }
        i := i + 1;
      }
      assert snapshotHosts[..i] == snapshotHosts;
    }

    /**
     * `verify`: exits when the working directory is not writable, otherwise writes one
     * status line per downtime entry and then one per snapshot entry. The answers of
     * the monitoring and virtualisation services are the two parameters.
     */
    method Verify(writable: bool, inDowntime: (Endpoint, string) -> bool,
                  hasSnapshot: (Endpoint, string, string) -> bool)
      returns (exited: bool, log: seq<string>)
      ensures exited <==> !writable
      ensures log == if exited then [] else
                MonitoringLines(downtimeHosts, inDowntime)
                + SnapshotLines(snapshotHosts, SnapshotName(prefix), hasSnapshot)
    {
      if !writable {
        return true, [];
      }
      exited := false;
      var mon: seq<string> := [];
      var i := 0;
      while i < |downtimeHosts|
        invariant 0 <= i <= |downtimeHosts|
        invariant mon == MonitoringLines(downtimeHosts[..i], inDowntime)
      {
        assert downtimeHosts[..i + 1][..i] == downtimeHosts[..i];
        var p := ParseSpec(downtimeHosts[i]);
        mon := mon + [StatusLine(inDowntime(EndpointOf(p), p.host), "MONOK", "MONCRIT", p.host)];
        i := i + 1;
      }
      assert downtimeHosts[..i] == downtimeHosts;
      var snap: seq<string> := [];
      var j := 0;
      while j < |snapshotHosts|
        invariant 0 <= j <= |snapshotHosts|
        invariant snap == SnapshotLines(snapshotHosts[..j], SnapshotName(prefix), hasSnapshot)
      {
        assert snapshotHosts[..j + 1][..j] == snapshotHosts[..j];
        var p := ParseSpec(snapshotHosts[j]);
        snap := snap + [StatusLine(hasSnapshot(EndpointOf(p), p.host, SnapshotName(prefix)),
                                   "SNAPOK", "SNAPCRIT", p.host)];
        j := j + 1;
      }
      assert snapshotHosts[..j] == snapshotHosts;
      log := mon + snap;
    }
  }

  /** No downtime request. */
  predicate NoDowntimes(calls: seq<Action>) {
    forall a :: a in calls ==> !a.ScheduleDowntime?
  }

  /** No snapshot request. */
  predicate NoSnapshots(calls: seq<Action>) {
    forall a :: a in calls ==> !a.CreateSnapshot?
  }

  lemma SnapshotCallsAreSnapshots(hosts: seq<string>, prefix: string, opts: Options)
    ensures NoDowntimes(SnapshotCalls(hosts, prefix, opts))
  {
    SnapshotCallsPerHost(hosts, prefix, opts);
  }

  lemma DowntimeCallsAreDowntimes(hosts: seq<string>, opts: Options)
    ensures NoSnapshots(DowntimeCalls(hosts, opts))
  {
    DowntimeCallsPerHost(hosts, opts);
  }

  /** The action branch of `main`: downtimes first, then snapshots, each unless skipped. */
  method Act(m: Maintenance, opts: Options) returns (calls: seq<Action>)
    ensures opts.dryrun ==> calls == []
    ensures opts.skipMonitoring ==> NoDowntimes(calls)
    ensures opts.skipSnapshot ==> NoSnapshots(calls)
    ensures !opts.dryrun ==>
              calls == (if opts.skipMonitoring then [] else DowntimeCalls(m.downtimeHosts, opts))
                       + (if opts.skipSnapshot then [] else SnapshotCalls(m.snapshotHosts, m.prefix, opts))
  {
    var down: seq<Action> := [];
    var snap: seq<Action> := [];
    if !opts.skipMonitoring {
      var _, d := m.SetDowntimes(opts);
      down := d;
      DowntimeCallsAreDowntimes(m.downtimeHosts, opts);
    }
    if !opts.skipSnapshot {
      var _, s := m.CreateSnapshots(opts);
      snap := s;
      SnapshotCallsAreSnapshots(m.snapshotHosts, m.prefix, opts);
    }
    calls := down + snap;
  }

  /** The hosts `readFile` selects from a report, before tidying; None where it raises IndexError. */
  function Selected(header: string, rows: seq<seq<string>>, noIntelligence: bool): Option<Hosts> {
    Collected(ColumnsOf(HeaderFields(header)), rows, noIntelligence)
  }

  /**
   * `main`: read the report, then verify or act. The requested actions and the
   * verify log are returned; `ctime` and the service answers are parameters.
   */
  method Run(opts: Options, ctime: string, header: string, rows: seq<seq<string>>,
             writable: bool, inDowntime: (Endpoint, string) -> bool,
             hasSnapshot: (Endpoint, string, string) -> bool)
    returns (outcome: Outcome, calls: seq<Action>, log: seq<string>)
    ensures outcome == Crashed <==> Selected(header, rows, opts.noIntelligence).None?
    ensures outcome == Exited <==> outcome != Crashed && opts.verifyOnly && !writable
    ensures opts.verifyOnly || opts.dryrun || outcome == Crashed ==> calls == []
    ensures !opts.verifyOnly || outcome != Completed ==> log == []
    ensures outcome == Completed && opts.verifyOnly ==>
              var picked := Selected(header, rows, opts.noIntelligence).value;
              log == MonitoringLines(Tidy(picked.downtime), inDowntime)
                     + SnapshotLines(Tidy(picked.snapshot), SnapshotName(ctime), hasSnapshot)
    ensures opts.skipMonitoring ==> NoDowntimes(calls)
    ensures opts.skipSnapshot ==> NoSnapshots(calls)
    ensures outcome != Crashed && !opts.verifyOnly && !opts.dryrun ==>
              var picked := Selected(header, rows, opts.noIntelligence).value;
              calls == (if opts.skipMonitoring then [] else DowntimeCalls(Tidy(picked.downtime), opts))
                       + (if opts.skipSnapshot then [] else SnapshotCalls(Tidy(picked.snapshot), ctime, opts))
  {
    var m := new Maintenance();
    var ok := m.ReadFile(ctime, header, rows, opts.noIntelligence);
    calls, log := [], [];
    if !ok {
      return Crashed, [], [];
    }
    ghost var picked := Selected(header, rows, opts.noIntelligence).value;
    assert [] + picked.downtime == picked.downtime && [] + picked.snapshot == picked.snapshot;
    assert m.downtimeHosts == Tidy(picked.downtime) && m.snapshotHosts == Tidy(picked.snapshot);
    assert m.prefix == ctime;
    outcome := Completed;
    if opts.verifyOnly {
      var exited;
      exited, log := m.Verify(writable, inDowntime, hasSnapshot);
      if exited {
        outcome := Exited;
      }
    } else {
      calls := Act(m, opts);
    }
  }
}
