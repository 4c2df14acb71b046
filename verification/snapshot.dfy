/**
 * satprep_snapshot: the errata snapshot report. For every system the management
 * server lists, one CSV row per relevant erratum and, optionally, one per package
 * update that no erratum provides; each row holds one value per report column,
 * taken from the system record, the erratum or update, and the system's custom
 * information values.
 *
 * The server's answers (system records, details, custom values, errata, updates,
 * erratum keywords) are inputs; the rows written and the re-logins performed are
 * returned.
 */
module Snapshot {
  import opened Common
  import opened Strings
  import opened PrepareMaintenance

  // ---------------------------------------------------------------------------
  // Report columns

  /** The report's columns, in the order the header lists them. */
  datatype Column =
    | Hostname | Ip | ErrataName | ErrataType | ErrataDesc | ErrataDate | ErrataReboot
    | SystemOwner | SystemProd | SystemCluster | SystemVirt | SystemVirtSnapshot
    | SystemVirtVmname | SystemMonitoring | SystemMonitoringName | SystemMonitoringNotes
    | SystemBackup | SystemBackupNotes | SystemAntivir | SystemAntivirNotes

  const DefaultFields: seq<Column> := [
    Hostname, Ip, ErrataName, ErrataType, ErrataDesc, ErrataDate, ErrataReboot,
    SystemOwner, SystemProd, SystemCluster, SystemVirt, SystemVirtSnapshot,
    SystemVirtVmname, SystemMonitoring, SystemMonitoringName, SystemMonitoringNotes,
    SystemBackup, SystemBackupNotes, SystemAntivir, SystemAntivirNotes]

  /** The column's name in the header row. */
  function ColumnName(c: Column): string {
    match c
    case Hostname => "hostname"
    case Ip => "ip"
    case ErrataName => "errata_name"
    case ErrataType => "errata_type"
    case ErrataDesc => "errata_desc"
    case ErrataDate => "errata_date"
    case ErrataReboot => "errata_reboot"
    case SystemOwner => "system_owner"
    case SystemProd => "system_prod"
    case SystemCluster => "system_cluster"
    case SystemVirt => "system_virt"
    case SystemVirtSnapshot => "system_virt_snapshot"
    case SystemVirtVmname => "system_virt_vmname"
    case SystemMonitoring => "system_monitoring"
    case SystemMonitoringName => "system_monitoring_name"
    case SystemMonitoringNotes => "system_monitoring_notes"
    case SystemBackup => "system_backup"
    case SystemBackupNotes => "system_backup_notes"
    case SystemAntivir => "system_antivir"
    case SystemAntivirNotes => "system_antivir_notes"
  }

  /** The columns filled from the system alone, the same way for erratum and update rows. */
  predicate SystemColumn(c: Column) {
    !(c.Hostname? || c.Ip? || c.ErrataName? || c.ErrataType? || c.ErrataDesc? || c.ErrataDate?
      || c.ErrataReboot?)
  }

  /** A value in a row: the flag columns hold integers, every other column a string. */
  datatype Cell = Str(text: string) | Num(n: int)

  // ---------------------------------------------------------------------------
  // Server data

  datatype Erratum = Erratum(name: string, kind: string, synopsis: string, date: string)

  datatype Update = Update(
    name: string, fromVersion: string, fromRelease: string, toVersion: string, toRelease: string,
    providedByErratum: bool)   // whether the server lists an erratum providing the new package

  /**
   * What the server reports about one system: its record from the system list,
   * its IP address, whether it is locked, whether its details mention
   * virtualisation, its custom information values, its errata and its updates.
   */
  datatype SystemInfo = SystemInfo(
    record: map<string, string>, ip: string, locked: bool, virtualization: bool,
    custom: map<string, string>, errata: seq<Erratum>, updates: seq<Update>)

  /** Processing a system starts by formatting its name and id; without them it raises KeyError. */
  predicate Named(sys: SystemInfo) {
    "name" in sys.record && "id" in sys.record
  }

  // ---------------------------------------------------------------------------
  // Column rules shared by both kinds of rows

  /** A flag column: 1 exactly when the custom key is present and holds "1". */
  function CustomFlag(custom: map<string, string>, key: string): (c: Cell)
    ensures c == Num(1) <==> key in custom && custom[key] == "1"
    ensures c == Num(0) <==> !(key in custom && custom[key] == "1")
  {
    if key in custom && custom[key] == "1" then Num(1) else Num(0)
  }

  /** The owner with its whitespace runs collapsed, or "unknown" when no owner is recorded. */
  function Owner(custom: map<string, string>): (r: string)
    ensures SingleSpaced(r)
    ensures "SYSTEM_OWNER" in custom ==> Words(r) == Words(custom["SYSTEM_OWNER"])
    ensures "SYSTEM_OWNER" !in custom ==> r == "unknown"
  {
    if "SYSTEM_OWNER" in custom then
      CollapseSpacesKeepsWords(custom["SYSTEM_OWNER"]);
      CollapseSpaces(custom["SYSTEM_OWNER"])
    else
      assert forall j :: 0 <= j < |"unknown"| ==> !IsSpace("unknown"[j]);
      "unknown"
  }

  /** A notes column: the custom value, or "" when absent. */
  function Note(custom: map<string, string>, key: string): string {
    if key in custom then custom[key] else ""
  }

  /**
   * The VM or monitoring name column: the custom name, extended to
   * `name@host:auth` when a host and its credential are also recorded.
   */
  function NameWithEndpoint(custom: map<string, string>, nameKey: string, hostKey: string,
                            authKey: string): string
  {
    if nameKey in custom && custom[nameKey] != "" then
      if hostKey in custom && custom[hostKey] != "" && authKey in custom && custom[authKey] != "" then
        custom[nameKey] + "@" + custom[hostKey] + ":" + custom[authKey]
      else custom[nameKey]
    else ""
  }

  /**
   * The name column is what the maintenance script parses back: the name, and the
   * host and credential exactly when all three are recorded.
   */
  lemma NameWithEndpointParses(custom: map<string, string>, nameKey: string, hostKey: string,
                               authKey: string)
    requires nameKey in custom ==> '@' !in custom[nameKey] && ':' !in custom[nameKey]
    requires authKey in custom ==> ':' !in custom[authKey]
    ensures var r := NameWithEndpoint(custom, nameKey, hostKey, authKey);
            var full := nameKey in custom && custom[nameKey] != ""
                        && hostKey in custom && custom[hostKey] != ""
                        && authKey in custom && custom[authKey] != "";
            && (full ==> ParseSpec(r) == HostSpec(custom[nameKey], custom[hostKey], custom[authKey])
                         && EndpointOf(ParseSpec(r)) == Own(custom[hostKey], custom[authKey]))
            && (!full ==> ParseSpec(r) == HostSpec(r, "", "") && EndpointOf(ParseSpec(r)) == Configured)
            && (nameKey !in custom || custom[nameKey] == "" <==> r == "")
  {
    var r := NameWithEndpoint(custom, nameKey, hostKey, authKey);
    if nameKey in custom && custom[nameKey] != "" && hostKey in custom && custom[hostKey] != ""
       && authKey in custom && custom[authKey] != "" {
      ParseSpecRoundTrip(custom[nameKey], custom[hostKey], custom[authKey]);
    }
  }

  /** The value of a column that depends only on the system. */
  function SystemCell(col: Column, sys: SystemInfo): Cell
    requires SystemColumn(col)
  {
    match col
    case SystemOwner => Str(Owner(sys.custom))
    case SystemProd => CustomFlag(sys.custom, "SYSTEM_PROD")
    case SystemCluster => CustomFlag(sys.custom, "SYSTEM_CLUSTER")
    case SystemVirt => Num(if sys.virtualization then 1 else 0)
    case SystemVirtSnapshot => CustomFlag(sys.custom, "SYSTEM_VIRT_SNAPSHOT")
    case SystemVirtVmname =>
      Str(NameWithEndpoint(sys.custom, "SYSTEM_VIRT_VMNAME", "SYSTEM_VIRT_HOST", "SYSTEM_VIRT_HOST_AUTH"))
    case SystemMonitoring => CustomFlag(sys.custom, "SYSTEM_MONITORING")
    case SystemMonitoringName =>
      Str(NameWithEndpoint(sys.custom, "SYSTEM_MONITORING_NAME", "SYSTEM_MONITORING_HOST",
                           "SYSTEM_MONITORING_HOST_AUTH"))
    case SystemMonitoringNotes => Str(Note(sys.custom, "SYSTEM_MONITORING_NOTES"))
    case SystemBackup => CustomFlag(sys.custom, "SYSTEM_BACKUP")
    case SystemBackupNotes => Str(Note(sys.custom, "SYSTEM_BACKUP_NOTES"))
    case SystemAntivir => CustomFlag(sys.custom, "SYSTEM_ANTIVIR")
    case SystemAntivirNotes => Str(Note(sys.custom, "SYSTEM_ANTIVIR_NOTES"))
    case _ => assert false; Str("")
  }

  // ---------------------------------------------------------------------------
  // Erratum rows

  /**
   * `errata[i]` where the loop counts from 1: the erratum after the current one,
   * or None where the index runs past the list and the bare except takes over.
   */
  function Indexed(errata: seq<Erratum>, i: int): Option<Erratum> {
    if 0 <= i < |errata| then Some(errata[i]) else None
  }

  /** The system record's value for a mapped key when it has one, the fallback otherwise. */
  function Mapped(sys: SystemInfo, key: string, otherwise: string): Cell {
    if key in sys.record then Str(sys.record[key]) else Str(otherwise)
  }

  /**
   * The reboot flag of an erratum row: "1" when the indexed erratum's synopsis
   * mentions a kernel or its keywords include `reboot_suggested`, "0" otherwise and
   * whenever a lookup fails. `keywords` is the server's keyword list, None where
   * the call raises.
   */
  function ErratumReboot(errata: seq<Erratum>, i: int, keywords: string -> Option<seq<string>>): (r: string)
    ensures r == "1" || r == "0"
    ensures r == "1" <==>
              0 <= i < |errata| &&
              (Contains(errata[i].synopsis, "kernel") ||
               (keywords(errata[i].name).Some? && "reboot_suggested" in keywords(errata[i].name).value))
  {
    match Indexed(errata, i)
    case None => "0"
    case Some(e) =>
      if Contains(e.synopsis, "kernel") then "1"
      else match keywords(e.name)
        case None => "0"
        case Some(kws) => if "reboot_suggested" in kws then "1" else "0"
  }

  /** One value of the row for loop counter `i` (counting from 1). */
  function ErratumCell(col: Column, sys: SystemInfo, i: int, keywords: string -> Option<seq<string>>): Cell
    requires Named(sys)
  {
    var e := Indexed(sys.errata, i);
    match col
    case Hostname => Str(sys.record["name"])
    case Ip => Str(sys.ip)
    case ErrataName => Mapped(sys, "advisory_name", if e.Some? then e.value.name else "")
    case ErrataType => Mapped(sys, "advisory_type", if e.Some? then e.value.kind else "")
    case ErrataDesc => Mapped(sys, "advisory_synopsis", if e.Some? then e.value.synopsis else "")
    case ErrataDate => Mapped(sys, "update_date", if e.Some? then e.value.date else "")
    case ErrataReboot => Str(ErratumReboot(sys.errata, i, keywords))
    case _ => SystemCell(col, sys)
  }

  function ErratumRow(sys: SystemInfo, i: int, keywords: string -> Option<seq<string>>): seq<Cell>
    requires Named(sys)
  {
    seq(|DefaultFields|, k requires 0 <= k < |DefaultFields| => ErratumCell(DefaultFields[k], sys, i, keywords))
  }

  /** The rows `process_errata` writes: none for a skipped locked system, one per erratum otherwise. */
  function ErrataRows(sys: SystemInfo, includeLocked: bool, keywords: string -> Option<seq<string>>)
    : seq<seq<Cell>>
    requires Named(sys)
  {
    if sys.locked && !includeLocked then []
    else seq(|sys.errata|, r requires 0 <= r < |sys.errata| => ErratumRow(sys, r + 1, keywords))
  }

  /**
   * The erratum columns of row `r` show erratum `r + 1`, and the last row shows
   * empty values and no reboot, because the loop counter starts at 1 while the
   * list is indexed from 0.
   */
  lemma ErrataRowsShifted(sys: SystemInfo, includeLocked: bool, keywords: string -> Option<seq<string>>, r: int)
    requires Named(sys) && !(sys.locked && !includeLocked) && 0 <= r < |sys.errata|
    requires "advisory_name" !in sys.record && "advisory_synopsis" !in sys.record
    ensures var row := ErrataRows(sys, includeLocked, keywords)[r];
            && (r + 1 < |sys.errata| ==> row[2] == Str(sys.errata[r + 1].name)
                                         && row[4] == Str(sys.errata[r + 1].synopsis))
            && (r + 1 == |sys.errata| ==> row[2] == Str("") && row[4] == Str("") && row[6] == Str("0"))
  {
  }

  // ---------------------------------------------------------------------------
  // Update rows

  /** `"{from_version}-{from_release} to {to_version}-{to_release}"`. */
  function UpdateDescription(u: Update): string {
    u.fromVersion + "-" + u.fromRelease + " to " + u.toVersion + "-" + u.toRelease
  }

  function PatchCell(col: Column, sys: SystemInfo, u: Update): Cell
    requires Named(sys)
  {
    match col
    case Hostname => Str(sys.record["name"])
    case Ip => Str(sys.ip)
    case ErrataName => Str(u.name)
    case ErrataType => Str("Regular update")
    case ErrataDesc => Str(UpdateDescription(u))
    case ErrataDate => Str("unknown")
    case ErrataReboot => Str(if Contains(u.name, "kernel") then "1" else "0")
    case _ => SystemCell(col, sys)
  }

  function PatchRow(sys: SystemInfo, u: Update): seq<Cell>
    requires Named(sys)
  {
    seq(|DefaultFields|, k requires 0 <= k < |DefaultFields| => PatchCell(DefaultFields[k], sys, u))
  }

  /** An update row is a "Regular update" of unknown date that needs a reboot exactly for a kernel. */
  lemma PatchRowShape(sys: SystemInfo, u: Update)
    requires Named(sys)
    ensures var row := PatchRow(sys, u);
            && |row| == |DefaultFields|
            && row[2] == Str(u.name)
            && row[3] == Str("Regular update")
            && row[4] == Str(UpdateDescription(u))
            && row[5] == Str("unknown")
            && (row[6] == Str("1") <==> Contains(u.name, "kernel"))
            && (row[6] == Str("0") <==> !Contains(u.name, "kernel"))
  {
    assert DefaultFields[2] == ErrataName && DefaultFields[3] == ErrataType && DefaultFields[4] == ErrataDesc;
    assert DefaultFields[5] == ErrataDate && DefaultFields[6] == ErrataReboot;
  }

  /** The update rows for a list of updates: one per update that no erratum provides. */
  function PatchRowsOf(sys: SystemInfo, us: seq<Update>): seq<seq<Cell>>
    requires Named(sys)
  {
    if us == [] then []
    else
      var u := us[|us| - 1];
      PatchRowsOf(sys, us[..|us| - 1]) + (if u.providedByErratum then [] else [PatchRow(sys, u)])
  }

  function PatchRows(sys: SystemInfo, includeLocked: bool): seq<seq<Cell>>
    requires Named(sys)
  {
    if sys.locked && !includeLocked then [] else PatchRowsOf(sys, sys.updates)
  }

  /** Every update no erratum provides gets its row, and every row comes from such an update. */
  lemma {:induction false} PatchRowsExactly(sys: SystemInfo, us: seq<Update>)
    requires Named(sys)
    ensures forall u :: u in us && !u.providedByErratum ==> PatchRow(sys, u) in PatchRowsOf(sys, us)
    ensures forall row :: row in PatchRowsOf(sys, us) ==>
              exists u :: u in us && !u.providedByErratum && row == PatchRow(sys, u)
    decreases |us|
  {
    if us != [] {
      var init := us[..|us| - 1];
      PatchRowsExactly(sys, init);
      assert us == init + [us[|us| - 1]];
    }
  }

  /** An erratum row and an update row of the same system agree on every column but the erratum ones. */
  lemma RowsAgreeOnSystem(sys: SystemInfo, i: int, keywords: string -> Option<seq<string>>, u: Update, k: int)
    requires Named(sys) && 0 <= k < |DefaultFields| && (k < 2 || k >= 7)
    ensures ErratumRow(sys, i, keywords)[k] == PatchRow(sys, u)[k]
  {
  }

  // ---------------------------------------------------------------------------
  // Loops

  /** The column loop of `process_errata`: one value appended per report column. */
  method BuildErratumRow(sys: SystemInfo, i: int, keywords: string -> Option<seq<string>>)
    returns (valueSet: seq<Cell>)
    requires Named(sys)
    ensures valueSet == ErratumRow(sys, i, keywords)
  {
    valueSet := [];
    var j := 0;
    while j < |DefaultFields|
      invariant 0 <= j <= |DefaultFields|
      invariant |valueSet| == j
      invariant forall k :: 0 <= k < j ==> valueSet[k] == ErratumCell(DefaultFields[k], sys, i, keywords)
    {
      valueSet := valueSet + [ErratumCell(DefaultFields[j], sys, i, keywords)];
      j := j + 1;
    }
  }

  /** The column loop of `process_patches`. */
  method BuildPatchRow(sys: SystemInfo, u: Update) returns (valueSet: seq<Cell>)
    requires Named(sys)
    ensures valueSet == PatchRow(sys, u)
  {
    valueSet := [];
    var j := 0;
    while j < |DefaultFields|
      invariant 0 <= j <= |DefaultFields|
      invariant |valueSet| == j
      invariant forall k :: 0 <= k < j ==> valueSet[k] == PatchCell(DefaultFields[k], sys, u)
    {
      valueSet := valueSet + [PatchCell(DefaultFields[j], sys, u)];
      j := j + 1;
    }
  }

  /** `process_errata`: skip a locked system unless asked not to, then one row per erratum. */
  method ProcessErrata(sys: SystemInfo, includeLocked: bool, keywords: string -> Option<seq<string>>)
    returns (rows: seq<seq<Cell>>)
    requires Named(sys)
    ensures rows == ErrataRows(sys, includeLocked, keywords)
  {
    rows := [];
    if sys.locked && !includeLocked {
      return;
    }
    if sys.errata == [] {
      return;
    }
    var i := 1;
    while i <= |sys.errata|
      invariant 1 <= i <= |sys.errata| + 1
      invariant |rows| == i - 1
      invariant forall r :: 0 <= r < i - 1 ==> rows[r] == ErratumRow(sys, r + 1, keywords)
    {
      var valueSet := BuildErratumRow(sys, i, keywords);
      rows := rows + [valueSet];
      i := i + 1;
    }
  }

  /** `process_patches`: skip a locked system unless asked not to, and updates an erratum provides. */
  method ProcessPatches(sys: SystemInfo, includeLocked: bool) returns (rows: seq<seq<Cell>>)
    requires Named(sys)
    ensures rows == PatchRows(sys, includeLocked)
  {
    rows := [];
    if sys.locked && !includeLocked {
      return;
    }
    var us := sys.updates;
    var i := 0;
    while i < |us|
      invariant 0 <= i <= |us|
      invariant rows == PatchRowsOf(sys, us[..i])
    {
      assert us[..i + 1][..i] == us[..i];
      if !us[i].providedByErratum {
        var valueSet := BuildPatchRow(sys, us[i]);
        rows := rows + [valueSet];
      }
      i := i + 1;
    }
    assert us[..i] == us;
  }

  // ---------------------------------------------------------------------------
  // main

  datatype Options = Options(includeLocked: bool, includePatches: bool, reconnectThreshold: int)

  /** The header row: every column's name, in order. */
  function HeaderRow(): seq<Cell> {
    seq(|DefaultFields|, k requires 0 <= k < |DefaultFields| => Str(ColumnName(DefaultFields[k])))
  }

  /** The rows written for one system. */
  function SystemRows(sys: SystemInfo, opts: Options, keywords: string -> Option<seq<string>>)
    : seq<seq<Cell>>
    requires Named(sys)
  {
    ErrataRows(sys, opts.includeLocked, keywords) + (if opts.includePatches then PatchRows(sys, opts.includeLocked) else [])
  }

  /** `process_system`: the erratum rows, then the update rows when they are asked for. */
  method ProcessSystem(sys: SystemInfo, opts: Options, keywords: string -> Option<seq<string>>)
    returns (rows: seq<seq<Cell>>)
    requires Named(sys)
    ensures rows == SystemRows(sys, opts, keywords)
  {
    rows := ProcessErrata(sys, opts.includeLocked, keywords);
    if opts.includePatches {
      var patchRows := ProcessPatches(sys, opts.includeLocked);
      rows := rows + patchRows;
    }
  }

  predicate AllNamed(systems: seq<SystemInfo>) {
    forall j :: 0 <= j < |systems| ==> Named(systems[j])
  }

  /** The data rows for a list of systems, in list order. */
  function AllRows(systems: seq<SystemInfo>, opts: Options, keywords: string -> Option<seq<string>>)
    : seq<seq<Cell>>
    requires AllNamed(systems)
  {
    if systems == [] then []
    else AllRows(systems[..|systems| - 1], opts, keywords) + SystemRows(systems[|systems| - 1], opts, keywords)
  }

  /** The rows of one system hold one value per report column. */
  lemma SystemRowsWidth(sys: SystemInfo, opts: Options, keywords: string -> Option<seq<string>>)
    requires Named(sys)
    ensures forall row :: row in SystemRows(sys, opts, keywords) ==> |row| == |DefaultFields|
  {
    var errata := ErrataRows(sys, opts.includeLocked, keywords);
    forall row | row in errata ensures |row| == |DefaultFields| {
      var r :| 0 <= r < |errata| && errata[r] == row;
      assert row == ErratumRow(sys, r + 1, keywords);
    }
    PatchRowsExactly(sys, sys.updates);
  }

  /** Every data row holds exactly one value per report column, as the header does. */
  lemma {:induction false} AllRowsWidth(systems: seq<SystemInfo>, opts: Options,
                                        keywords: string -> Option<seq<string>>)
    requires AllNamed(systems)
    ensures forall row :: row in AllRows(systems, opts, keywords) ==> |row| == |HeaderRow()|
    decreases |systems|
  {
    if systems != [] {
      var init := systems[..|systems| - 1];
      assert AllNamed(init);
      AllRowsWidth(init, opts, keywords);
      SystemRowsWidth(systems[|systems| - 1], opts, keywords);
    }
  }

  /** The systems after which the re-login workaround fires, for the first `n` systems. */
  function Relogins(n: nat, threshold: int): seq<nat> {
    if n == 0 then []
    else Relogins(n - 1, threshold) + (if threshold >= 1 && n % threshold == 0 then [n - 1] else [])
  }

  /**
   * With a threshold of at least 1 the session is renewed after every
   * `threshold`-th system; with a smaller one never.
   */
  lemma {:induction false} ReloginsExactly(n: nat, threshold: int)
    ensures threshold >= 1 ==> forall j: nat :: j in Relogins(n, threshold) <==> j < n && (j + 1) % threshold == 0
    ensures threshold < 1 ==> Relogins(n, threshold) == []
    decreases n
  {
    if n > 0 {
      ReloginsExactly(n - 1, threshold);
      if threshold >= 1 {
        forall j: nat ensures j in Relogins(n, threshold) <==> j < n && (j + 1) % threshold == 0 {
          if j < n - 1 {
            assert j in Relogins(n, threshold) <==> j in Relogins(n - 1, threshold);
          }
        }
      }
    } else {
      assert Relogins(n, threshold) == [];
    }
  }

  lemma {:induction false} MulAtLeast(k: int, t: int)
    requires k >= 1 && t >= 1
    ensures k * t >= t
    decreases k
  {
    if k > 1 {
      MulAtLeast(k - 1, t);
      assert k * t == (k - 1) * t + t;
    }
  }

  /** Quotient and remainder are unique. */
  lemma ModUnique(a: int, t: int, q: int, r: int)
    requires t >= 1 && 0 <= r < t && a == q * t + r
    ensures a % t == r
  {
    var q', r' := a / t, a % t;
    assert a == q' * t + r';
    if q > q' {
      assert (q - q') * t == q * t - q' * t;
      MulAtLeast(q - q', t);
    } else if q < q' {
      assert (q' - q) * t == q' * t - q * t;
      MulAtLeast(q' - q, t);
    }
  }

  lemma ModStep(i: nat, t: int)
    requires t >= 1
    ensures (i + 1) % t == if i % t == t - 1 then 0 else i % t + 1
  {
    var q, r := i / t, i % t;
    assert i == q * t + r;
    if r == t - 1 {
      assert i + 1 == (q + 1) * t + 0;
      ModUnique(i + 1, t, q + 1, 0);
    } else {
      ModUnique(i + 1, t, q, r + 1);
    }
  }

  /** The value of `hostCounter` after `i` systems. */
  function HostCounter(i: nat, threshold: int): int {
    if threshold >= 1 then i % threshold else i
  }

  /** One pass of the counter: reset and re-login exactly where `Relogins` records one. */
  lemma CounterStep(i: nat, threshold: int)
    ensures HostCounter(i + 1, threshold) ==
              if HostCounter(i, threshold) == threshold - 1 then 0 else HostCounter(i, threshold) + 1
    ensures Relogins(i + 1, threshold) ==
              Relogins(i, threshold) + (if HostCounter(i, threshold) == threshold - 1 then [i] else [])
  {
    if threshold >= 1 {
      ModStep(i, threshold);
    }
  }

  /** Appending one named system to a prefix of named systems appends its rows. */
  lemma RowsStep(systems: seq<SystemInfo>, i: int, opts: Options, keywords: string -> Option<seq<string>>)
    requires 0 <= i < |systems| && AllNamed(systems[..i]) && Named(systems[i])
    ensures AllNamed(systems[..i + 1])
    ensures AllRows(systems[..i + 1], opts, keywords) ==
              AllRows(systems[..i], opts, keywords) + SystemRows(systems[i], opts, keywords)
  {
    assert systems[..i + 1][..i] == systems[..i];
  }

  /**
   * `main` once logged in: when the output is writable, the header row and then
   * every system's rows, renewing the session after every `reconnectThreshold`-th
   * system. A system without a name or id ends the run with KeyError.
   */
  method Snapshot(systems: seq<SystemInfo>, opts: Options, keywords: string -> Option<seq<string>>,
                  writable: bool)
    returns (outcome: Outcome, rows: seq<seq<Cell>>, relogins: seq<nat>)
    ensures outcome != Exited
    ensures !writable ==> outcome == Completed && rows == [] && relogins == []
    ensures outcome == Crashed <==> writable && !AllNamed(systems)
    ensures outcome == Completed && writable ==>
              rows == [HeaderRow()] + AllRows(systems, opts, keywords)
              && relogins == Relogins(|systems|, opts.reconnectThreshold)
    ensures outcome == Crashed ==>
              exists n :: 0 <= n < |systems| && AllNamed(systems[..n]) && !Named(systems[n])
                          && rows == [HeaderRow()] + AllRows(systems[..n], opts, keywords)
                          && relogins == Relogins(n, opts.reconnectThreshold)
  {
    rows, relogins := [], [];
    if !writable {
      return Completed, [], [];
    }
    var header := HeaderRow();
    var body: seq<seq<Cell>> := [];
    var hostCounter := 0;
    var i := 0;
    while i < |systems|
      invariant 0 <= i <= |systems|
      invariant AllNamed(systems[..i])
      invariant body == AllRows(systems[..i], opts, keywords)
      invariant relogins == Relogins(i, opts.reconnectThreshold)
      invariant hostCounter == HostCounter(i, opts.reconnectThreshold)
    {
      var sys := systems[i];
      if !Named(sys) {
        return Crashed, [header] + body, relogins;
      }
      RowsStep(systems, i, opts, keywords);
      var sysRows := ProcessSystem(sys, opts, keywords);
      body := body + sysRows;
      CounterStep(i, opts.reconnectThreshold);
      if hostCounter == opts.reconnectThreshold - 1 {
        relogins := relogins + [i];
        hostCounter := 0;
      } else {
        hostCounter := hostCounter + 1;
      }
      i := i + 1;
    }
    assert systems[..i] == systems;
    rows := [header] + body;
    outcome := Completed;
  }
}
