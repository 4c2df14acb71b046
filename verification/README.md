# satprep core, modelled in Dafny

satprep is a toolkit around a Red Hat Satellite / Spacewalk management server.
It prepares patch maintenance windows. This project models its six scripts as
Dafny modules. For each script, the modules prove what the script computes and
which server calls it makes.

- `PatchFreeze` and `PatchFreezePlan` (`patch_freeze.dfy`) model
  `satprep_patch_freeze.py`. The script resolves target systems from names and
  groups, minus a blacklist. It scans their base and child channels into a
  channel tree. On freeze it clones every channel of the tree and moves the
  systems onto the clones. On unfreeze it moves the systems back and deletes the
  clones. The module proves that the clone labels are well formed and that every
  child's parent is cloned first. It proves which clones unfreeze deletes, and
  that the remap round trip restores a system's channels.
- `PrepareMaintenance` (`prepare_maintenance.dfy`) models
  `satprep_prepare_maintenance.py`. It reads a snapshot report and picks the hosts
  that need a monitoring downtime or a VM snapshot. It sorts and de-duplicates both
  lists and drops the blacklisted header names. It parses per-host
  `name@uri:credential` entries. Then it either requests the downtimes and
  snapshots or writes the verification log.
- `ScheduleDowntime` (`schedule_downtime.dfy`) models
  `satprep_schedule_downtime.py`. It selects hosts from the report and posts one
  fixed-downtime form per host to the monitoring CGI. It classifies each response
  by its status code and by whether the page contains the word "error".
- `Snapshot` (`snapshot.dfy`) models `satprep_snapshot.py`. It writes the header
  row and then one row per relevant erratum and, optionally, one row per update
  that no erratum provides, for each system. It renews the API session after
  every `reconnectThreshold`-th system.
- `VcVms` (`vcvms.dfy`) models `satprep_wa_vcvms.py`. It maps ESXi hosts to
  datacenters and clusters, and places the Satellite-managed VMs on their runtime
  hosts. It then writes each system's `vpx://` libvirt URI into the
  `SYSTEM_VIRT_HOST` custom key.
- `CustomInfos` (`custominfos.dfy`) models `satprep_install_custominfos.py`. It
  creates the custom information keys the other scripts read, overwrites them
  when forced, or deletes them all.
- `Strings`, `Ordering`, `Report` and `Common` hold the pieces of Python these
  scripts rely on:
  - `find`, `rfind`, slicing, `split`, `strip`, `lower` and whitespace handling;
  - Python 2 string order, `sorted(set(...))` and `list.remove`;
  - the CSV header lookup with the "column disabled" value 666;
  - `Option` and the `Outcome` of a run (completed, exited, crashed).

The servers are not modelled. What a server knows is an input: an inventory, a
list of systems, a key listing, or a function that gives its answer to a request.
Every call that changes a server is returned, in order, as a datatype value. An
uncaught Python exception (`IndexError`, `KeyError`, `NameError`) becomes an
explicit `Crashed` outcome or a `None` result. A module-level list or dictionary
that a script updates in place becomes a class field. The methods that update the
field are proved against a function of the inputs and the old state.

## Behaviour of the scripts worth knowing

- A clone is labelled `<channel>-<label>-<date>`.
  Unfreeze strips a clone label back to its channel only when the label token starts
  with `satprep`. `PatchFreeze.UnfreezeWithInnerSatprep` shows a label the script
  accepts for which the round trip fails.
- Unfreeze deletes the clone of every child channel. Of the base channels, it
  deletes only the clone of the last one the loop visited (`PatchFreezePlan.DeletePlanDeletes`).
- Python 2 dictionaries are walked in hash order, which the code does not fix.
  Every dictionary the scripts walk is a sequence in a fixed order. Every property
  holds for any such order.

## Model

| member | source | states |
|---|---|---|
| Strings.Find | satprep_patch_freeze.py:65 | `s.find(p)`: -1 exactly when `p` occurs nowhere, otherwise the first index where it occurs |
| Strings.IndexOf | satprep_prepare_maintenance.py:134-136 | `find` of one character: -1 exactly when it is absent, otherwise the index of its first occurrence |
| Strings.RFind | satprep_prepare_maintenance.py:134-135 | `rfind` of one character: -1 exactly when it is absent, otherwise the index of its last occurrence |
| Strings.Slice | satprep_prepare_maintenance.py:134-136 | Python's `s[i:j]` never outgrows `s` and agrees with the plain slice when the bounds are in range |
| Strings.Lower | satprep_wa_vcvms.py:153 | `lower()` keeps the length and maps every character through the ASCII case rule |
| Strings.Split | satprep_patch_freeze.py:203-205 | `split(sep)` yields at least one part and no part holds the separator |
| Strings.SplitJoin | satprep_patch_freeze.py:203-205 | joining the parts of `split(sep)` with `sep` gives the input back |
| Strings.Words | satprep_snapshot.py:246 | `split()` yields non-empty parts with no whitespace; with `WordsOfWord` and `WordsSplitAtSpace` the parts are fixed for every input |
| Strings.WordsOfWord | satprep_snapshot.py:246 | `split()` of a non-empty run without whitespace is that run alone |
| Strings.WordsSplitAtSpace | satprep_snapshot.py:246 | every whitespace character separates words: `split()` of `a`, a whitespace character, then `b` is the words of `a` followed by the words of `b` |
| Strings.ConcatWordsIsVisible | satprep_patch_freeze.py:201 | `''.join(s.split())` deletes exactly the whitespace characters and keeps the rest in order |
| Strings.CollapseSpaces | satprep_snapshot.py:246 | `' '.join(s.split())` is single-spaced: non-empty words separated by one space, no whitespace at either end |
| Strings.WordsOfJoin | satprep_snapshot.py:246 | splitting a single-spaced join gives the words back |
| Strings.CollapseSpacesKeepsWords | satprep_snapshot.py:246 | collapsing keeps the words and their order, and a second collapse changes nothing |
| Strings.Strip | satprep_patch_freeze.py:201 | `strip(chars)` is a slice of the input with only characters of the set cut off either end, and leaves neither end in the set |
| Ordering.LessTransitive | satprep_prepare_maintenance.py:282-283 | the Python 2 string order is transitive |
| Ordering.LessTotal | satprep_prepare_maintenance.py:282-283 | any two distinct strings are ordered one way or the other |
| Ordering.SortedSet | satprep_prepare_maintenance.py:282-283 | `sorted(set(xs))` is strictly increasing and holds exactly the elements of `xs` |
| Ordering.SortedDetermined | satprep_prepare_maintenance.py:282-283 | two strictly sorted lists with the same elements are equal, so the sorted set is unique |
| Ordering.SortedDistinct | satprep_prepare_maintenance.py:282-283 | a strictly sorted list repeats no element |
| Ordering.RemoveFirstSorted | satprep_prepare_maintenance.py:284-286 | `remove` on a sorted set deletes exactly that element and keeps the list sorted |
| Report.DropChar | satprep_prepare_maintenance.py:247 | `replace(c, "")` removes every `c`, keeps every other character, and leaves a string without `c` unchanged |
| Report.DropCharAppend | satprep_prepare_maintenance.py:247 | `replace(c, "")` works piece by piece on a concatenation, so with the above the kept characters keep their order and number |
| Report.HeaderFields | satprep_prepare_maintenance.py:247 | at least one field, no field holds `;`, and for a header line without line breaks the fields joined by `;` are the line itself |
| Report.HeaderFieldsJoin | satprep_prepare_maintenance.py:247 | for any header line, the fields joined by `;` are the line with every `\n` and `\r` removed |
| Report.IndexIn | satprep_prepare_maintenance.py:252 | `list.index`: the first position of the name, or -1 exactly where Python raises ValueError |
| Report.ColumnIndexes | satprep_prepare_maintenance.py:248-254 | each report column maps to its first header position, and a column missing from the header maps to 666 |
| Report.At | satprep_prepare_maintenance.py:265 | for a non-negative index (every column index is one), `row[i]` is defined exactly inside the row, otherwise IndexError |
| Report.Flag | satprep_prepare_maintenance.py:271 | a flag test holds exactly when the column is enabled and its cell is "1"; it raises exactly when an enabled column lies past the row's end |
| PatchFreeze.CleanLabel | satprep_patch_freeze.py:64-65 | a cleaned channel label is a prefix of the label |
| PatchFreeze.CleanLabelIsFindCut | satprep_patch_freeze.py:65 | the label is cut at the first "-satprep" when it holds one and is kept whole otherwise |
| PatchFreeze.CleanLabelIdempotent | satprep_patch_freeze.py:75-76 | a cleaned label holds no "-satprep", so cleaning it again changes nothing |
| PatchFreeze.UnfreezeWithoutMarker | satprep_patch_freeze.py:154-155 | on a label without "-satprep", `find` gives -1 and the unfreeze slice drops the label's last character |
| PatchFreeze.UnfreezeRecoversChannel | satprep_patch_freeze.py:154-156 | with a label token that starts with "satprep", both the unfreeze slice and discovery's clean-up recover the channel from its clone's label |
| PatchFreeze.UnfreezeWithInnerSatprep | satprep_patch_freeze.py:202 | the token "web-satprep" passes the label check, yet unfreezing the clone of "rhel7" gives "rhel7-web" |
| PatchFreeze.NormaliseLabelShape | satprep_patch_freeze.py:201-202 | the normalised label contains "satprep" and has no whitespace and no upper-case letter; it neither starts nor ends with '-', except for the bare "satprep-" |
| PatchFreeze.NormaliseLabelIdempotent | satprep_patch_freeze.py:201-202 | normalising a normalised label again changes nothing, except for the label `satprep-`, which the script turns into `satprep` |
| PatchFreeze.SplitOption | satprep_patch_freeze.py:203-205 | a list of other than one value is kept; a single value is re-read as comma-free parts |
| PatchFreeze.SplitOptionRoundTrip | satprep_patch_freeze.py:203-205 | for a single value not bounded by `[`, `]` or `'`, the comma split loses nothing |
| PatchFreezePlan.KnownSystemsExactly | satprep_patch_freeze.py:36-38 | a named system is kept exactly when the server has a profile for it |
| PatchFreezePlan.GroupMembersExactly | satprep_patch_freeze.py:39-46 | a host is added from the groups exactly when a named group that exists lists it |
| PatchFreezePlan.UnexcludedExactly | satprep_patch_freeze.py:48-51 | a host passes exactly when the blacklist check does not reject it |
| PatchFreezePlan.TargetsAreValidated | satprep_patch_freeze.py:36-51 | a target is a known named system or a member of a known named group, and never blacklisted; both directions |
| PatchFreezePlan.AddOne | satprep_patch_freeze.py:85-87 | appending unless present adds the element and loses none |
| PatchFreezePlan.AddChildrenDistinct | satprep_patch_freeze.py:73-79 | the child list of a base never repeats a label |
| PatchFreezePlan.AddChildrenExactly | satprep_patch_freeze.py:73-79 | after the loop the child list holds the old children plus every cleaned subscribed label, and nothing else |
| PatchFreezePlan.ScanHostsWellFormed | satprep_patch_freeze.py:57-89 | scanning keeps the tree well formed: each base appears once, has a child list, and no child list repeats a label |
| PatchFreezePlan.ChannelTree | satprep_patch_freeze.py:56-89 | the tree built from an empty one for the targets is well formed |
| PatchFreezePlan.AllSubchannelsAddsNothing | satprep_patch_freeze.py:81-87 | for a host with subscribed children, `--all-subchannels` re-tests a child already listed and adds nothing |
| PatchFreezePlan.AllSubchannelsStaleChild | satprep_patch_freeze.py:81-87 | for a host without subscribed children, `--all-subchannels` files an earlier host's last child under this host's base |
| PatchFreezePlan.ClonePlan | satprep_patch_freeze.py:117-141 | a freeze only clones channels |
| PatchFreezePlan.ClonePlanLabels | satprep_patch_freeze.py:119-141 | every clone gets the frozen label, name and summary; a child's clone names as parent the frozen label of a base that lists it |
| PatchFreezePlan.ClonePlanParentFirst | satprep_patch_freeze.py:117-141 | every child clone comes after the clone of its parent base |
| PatchFreezePlan.ClonePlanComplete | satprep_patch_freeze.py:117-141 | every base of the tree and every child under it is cloned |
| PatchFreezePlan.AllChildDeletes | satprep_patch_freeze.py:98-106 | the child loop of unfreeze only deletes channels |
| PatchFreezePlan.AllChildDeletesExactly | satprep_patch_freeze.py:98-106 | the clone of a channel is deleted by the child loop exactly when the channel is a child of some base |
| PatchFreezePlan.DeletePlanDeletes | satprep_patch_freeze.py:96-113 | unfreeze deletes a channel's clone exactly when the channel is a child in the tree or the last base visited |
| PatchFreezePlan.RemapRoundTrip | satprep_patch_freeze.py:153-174 | remapping onto the clones and back restores a system's channel labels, provided they hold no "-satprep" and the label token starts with "satprep" |
| PatchFreezePlan.RemapPlan | satprep_patch_freeze.py:145-186 | a dry run calls and logs nothing; the remap only sets channels; it raises exactly when some host lacks a profile or a base channel |
| PatchFreezePlan.RemapCrashStays | satprep_patch_freeze.py:149-152 | once a host has raised, later hosts change nothing |
| PatchFreezePlan.RemapPlanCovers | satprep_patch_freeze.py:149-185 | a remap that runs to the end sets the base channel and the child channels of every host, and makes no other call |
| PatchFreezePlan.RemapPlanErrors | satprep_patch_freeze.py:158-185 | a base-channel error is logged exactly when `setBaseChannel` fails; a child-channel error exactly when `setChildChannels` fails with anything but an RPC fault |
| PatchFreezePlan.CollectKnown | satprep_patch_freeze.py:36-38 | the loop over `--system` yields the known named systems in order |
| PatchFreezePlan.CollectMembers | satprep_patch_freeze.py:39-46 | the loop over `--group` yields the members of the known groups in order |
| PatchFreezePlan.AddSubscribed | satprep_patch_freeze.py:74-79 | the subscribed-children loop yields the child list and the last cleaned label |
| PatchFreezePlan.AddStale | satprep_patch_freeze.py:81-87 | the `--all-subchannels` loop appends the stale last child once when it is bound, and adds nothing otherwise |
| PatchFreezePlan.CloneAll | satprep_patch_freeze.py:117-141 | the freeze loop issues exactly the clone plan of the tree, nothing in a dry run |
| PatchFreezePlan.CloneChildren | satprep_patch_freeze.py:131-141 | the child clones of one base, none in a dry run |
| PatchFreezePlan.FreezeState.constructor | satprep_patch_freeze.py:24-25 | the systems list and the channel tree start empty |
| PatchFreezePlan.FreezeState.ResolveTargets | satprep_patch_freeze.py:30-51 | the validated targets are appended to the systems list |
| PatchFreezePlan.FreezeState.ScanChannels | satprep_patch_freeze.py:57-89 | the tree grows by the scan of every validated host and stays well formed |
| PatchFreezePlan.FreezeState.ScanOne | satprep_patch_freeze.py:58-89 | one host's scan, with the loop's leftover child carried from host to host |
| PatchFreezePlan.FreezeState.CloneChannels | satprep_patch_freeze.py:116-141 | a freeze issues the clone plan of the tree, and nothing in a dry run |
| PatchFreezePlan.DeleteChildren | satprep_patch_freeze.py:99-105 | the child clones' deletes under one base, none in a dry run |
| PatchFreezePlan.FreezeState.DeleteClones | satprep_patch_freeze.py:96-114 | unfreeze raises exactly when the tree is empty, even in a dry run; otherwise it only deletes |
| PatchFreezePlan.RemapOne | satprep_patch_freeze.py:150-186 | one host's two remap calls and the failures logged for them, none in a dry run |
| PatchFreezePlan.FreezeState.RemapSystems | satprep_patch_freeze.py:145-186 | `--no-remap` calls nothing; otherwise the remap plan over the systems list, which raises exactly when some system has no profile or no base channel |
| PatchFreezePlan.FreezeSteps | satprep_patch_freeze.py:222-224 | a freeze issues the clone plan of the tree (none in a dry run) followed by the remap calls; it raises exactly when the remap does; clones come first and every clone carries its frozen label |
| PatchFreezePlan.UnfreezeSteps | satprep_patch_freeze.py:219-221 | an unfreeze issues the remap calls, then the delete plan unless the remap raised, the tree is empty or it is a dry run; it raises exactly when the remap does or the tree is empty |
| PatchFreezePlan.Run | satprep_patch_freeze.py:190-224 | exits exactly when neither systems nor groups are given; otherwise the calls, errors and crash are those of the clone/remap or remap/delete plans over the resolved targets and the tree scanned from them, with the normalised token and the resolved date |
| PrepareMaintenance.ParseSpec | satprep_prepare_maintenance.py:133-141 | with both `@` and `:`, the host precedes the first `@` and the credential follows the last `:`; otherwise the whole entry is the host |
| PrepareMaintenance.ParseSpecRoundTrip | satprep_prepare_maintenance.py:133-136 | parsing `h@u:c` gives `h`, `u` and `c` back when `h` has no `@` and `c` no `:` |
| PrepareMaintenance.ParseSpecReassembles | satprep_prepare_maintenance.py:133-136 | when the first `@` precedes the last `:`, the three parts spell the entry |
| PrepareMaintenance.ParseSpecColonFirst | satprep_prepare_maintenance.py:133-141 | a `:` before the first `@` leaves the URI empty, so the configured endpoint is used |
| PrepareMaintenance.EndpointOf | satprep_prepare_maintenance.py:170-175 | an entry uses its own endpoint exactly when both its URI and its credential are non-empty |
| PrepareMaintenance.NamePrecedence | satprep_prepare_maintenance.py:265-268 | a non-empty custom name wins over the host name; the row raises exactly when the cell read lies past its end |
| PrepareMaintenance.SelectIntelligent | satprep_prepare_maintenance.py:271-279 | in intelligent mode a row is added exactly when both flag columns exist and hold "1" and a name can be read |
| PrepareMaintenance.MissingFlagSkips | satprep_prepare_maintenance.py:248-279 | a flag column missing from the header switches its rule off for every row |
| PrepareMaintenance.CollectedCrashStays | satprep_prepare_maintenance.py:261-279 | a row that raises IndexError ends the run, whatever follows it |
| PrepareMaintenance.CollectedNoCrash | satprep_prepare_maintenance.py:261-279 | when the loop completes, no row raised |
| PrepareMaintenance.CollectedExactly | satprep_prepare_maintenance.py:261-279 | a name is collected exactly when the rule added it for some row |
| PrepareMaintenance.RemoveListedSorted | satprep_prepare_maintenance.py:284-286 | removing the blacklist keeps the list sorted and drops exactly the listed names |
| PrepareMaintenance.TidyExactly | satprep_prepare_maintenance.py:282-286 | the host lists are sorted, free of duplicates, and hold exactly the selected names outside the blacklist |
| PrepareMaintenance.DowntimeCallsPerHost | satprep_prepare_maintenance.py:131-175 | one downtime request per entry, in order, for the entry's host on the entry's endpoint; it removes the downtime exactly when tidying |
| PrepareMaintenance.SnapshotCallsPerHost | satprep_prepare_maintenance.py:192-231 | one snapshot request per entry, in order, all with the report date followed by `_satprep` as name |
| PrepareMaintenance.OwnEndpointUsed | satprep_prepare_maintenance.py:133-175 | the entry `h@u:c` is handled on endpoint `u` with credential `c`, under host `h` |
| PrepareMaintenance.PlainEntryUsesConfigured | satprep_prepare_maintenance.py:138-175 | an entry without `@` is handled on the configured endpoint under its own name |
| PrepareMaintenance.StatusLineParses | satprep_prepare_maintenance.py:75-82 | a verify log line splits at `;` into its status and the host |
| PrepareMaintenance.MonitoringLinesPerHost | satprep_prepare_maintenance.py:57-82 | one log line per downtime entry, in order: MONOK exactly when the host is in downtime |
| PrepareMaintenance.SnapshotLinesPerHost | satprep_prepare_maintenance.py:90-115 | one log line per snapshot entry, in order: SNAPOK exactly when the snapshot exists |
| PrepareMaintenance.CollectRows | satprep_prepare_maintenance.py:259-279 | the row loop yields the collected names, or None where a row raises |
| PrepareMaintenance.ReadColumns | satprep_prepare_maintenance.py:245-254 | the column table is the header's lookup for the seven report columns |
| PrepareMaintenance.DropBlacklisted | satprep_prepare_maintenance.py:284-286 | the blacklist loop removes the listed names from both lists |
| PrepareMaintenance.Maintenance.constructor | satprep_prepare_maintenance.py:25-28 | both host lists and the prefix start empty |
| PrepareMaintenance.Maintenance.ReadFile | satprep_prepare_maintenance.py:235-286 | the prefix becomes the report date; on success both lists are tidied; where a row raises, the lists are left unchanged |
| PrepareMaintenance.Maintenance.SetDowntimes | satprep_prepare_maintenance.py:121-175 | returns early exactly on an empty list; a dry run requests nothing; otherwise one request per entry |
| PrepareMaintenance.Maintenance.CreateSnapshots | satprep_prepare_maintenance.py:179-231 | returns early exactly on an empty list; a dry run requests nothing; otherwise one request per entry |
| PrepareMaintenance.Maintenance.Verify | satprep_prepare_maintenance.py:37-117 | exits exactly when the directory is not writable; otherwise it writes the monitoring lines, then the snapshot lines |
| PrepareMaintenance.Act | satprep_prepare_maintenance.py:305-307 | downtimes first, then snapshots, each unless skipped; a dry run requests nothing |
| PrepareMaintenance.Run | satprep_prepare_maintenance.py:293-307 | crashes exactly when a report row raises; verify-only requests nothing and logs the monitoring lines then the snapshot lines of the tidied selection; otherwise it requests the tidied selection unless skipped and logs nothing |
| ScheduleDowntime.RowPickAll | satprep_schedule_downtime.py:90-92 | without intelligence every row yields its host name, or raises when it has none |
| ScheduleDowntime.RowPickIntelligent | satprep_schedule_downtime.py:93-95 | in intelligent mode a row is added exactly when its monitoring flag is "1", its reboot cell is non-empty, and both columns exist |
| ScheduleDowntime.MissingColumnSelectsNothing | satprep_schedule_downtime.py:75-95 | a report without either rule column selects no row in intelligent mode |
| ScheduleDowntime.CollectedCrashStays | satprep_schedule_downtime.py:88-95 | a row that raises IndexError ends the run, whatever follows it |
| ScheduleDowntime.CollectedExactly | satprep_schedule_downtime.py:88-95 | a name is collected exactly when some row's rule added it |
| ScheduleDowntime.TidyExactly | satprep_schedule_downtime.py:97-98 | the target list is sorted and free of duplicates, and holds exactly the selected names except "hostname" |
| ScheduleDowntime.UserAgent | satprep_schedule_downtime.py:35-38 | the given User-Agent when non-empty, the toolkit's own otherwise |
| ScheduleDowntime.PayloadFields | satprep_schedule_downtime.py:48 | every form is a fixed, untriggered command 55 for its host, with the user's hours, comment and author |
| ScheduleDowntime.Classify | satprep_schedule_downtime.py:60-64 | a status other than 200 is reported with its code; a 200 page fails exactly when it contains "error" in any case |
| ScheduleDowntime.ErrorInAnyCase | satprep_schedule_downtime.py:63 | "error" in any mix of cases marks a 200 page as failed |
| ScheduleDowntime.ReadColumns | satprep_schedule_downtime.py:72-81 | the column table is the header's lookup for the three report columns |
| ScheduleDowntime.CollectRows | satprep_schedule_downtime.py:86-95 | the row loop yields the collected names, or None where a row raises |
| ScheduleDowntime.Scheduler.constructor | satprep_schedule_downtime.py:22 | the target list starts empty |
| ScheduleDowntime.Scheduler.ReadFile | satprep_schedule_downtime.py:68-98 | on success the list is tidied with the selection; where a row raises, it is left unchanged |
| ScheduleDowntime.Scheduler.SetDowntime | satprep_schedule_downtime.py:24-64 | a dry run sends nothing; otherwise one request per host in order, each with its classified answer |
| ScheduleDowntime.Run | satprep_schedule_downtime.py:104-110 | crashes exactly when a row raises; otherwise one request per tidied host, in sorted order |
| Snapshot.CustomFlag | satprep_snapshot.py:249-255 | a flag column is 1 exactly when the key is present and holds "1", and 0 otherwise |
| Snapshot.Owner | satprep_snapshot.py:243-248 | the owner is single-spaced with the recorded owner's words, or "unknown" when none is recorded |
| Snapshot.NameWithEndpointParses | satprep_snapshot.py:276-311 | the VM and monitoring name cells parse back in the maintenance script: name, host and credential when all three are recorded, the bare name otherwise, empty exactly without a name |
| Snapshot.ErratumReboot | satprep_snapshot.py:231-242 | the reboot cell is "1" exactly when the indexed erratum exists and mentions "kernel" or has the `reboot_suggested` keyword, and "0" otherwise |
| Snapshot.ErrataRowsShifted | satprep_snapshot.py:185-228 | row `r` shows erratum `r + 1`; the last row shows empty erratum cells and no reboot |
| Snapshot.PatchRowShape | satprep_snapshot.py:398-417 | an update row is a "Regular update" of unknown date, described by its versions, that needs a reboot exactly for a kernel |
| Snapshot.PatchRowsExactly | satprep_snapshot.py:380-396 | every update that no erratum provides gets its row, and every row comes from such an update |
| Snapshot.RowsAgreeOnSystem | satprep_snapshot.py:243-343 | an erratum row and an update row of the same system agree on every column outside the erratum columns |
| Snapshot.BuildErratumRow | satprep_snapshot.py:193-343 | the column loop builds the erratum row, one value per report column |
| Snapshot.BuildPatchRow | satprep_snapshot.py:398-518 | the column loop builds the update row |
| Snapshot.ProcessErrata | satprep_snapshot.py:153-353 | no rows for a skipped locked system, one row per relevant erratum otherwise |
| Snapshot.ProcessPatches | satprep_snapshot.py:357-521 | no rows for a skipped locked system; one row per update that no erratum provides |
| Snapshot.ProcessSystem | satprep_snapshot.py:144-149 | the erratum rows, then the update rows when they are asked for |
| Snapshot.AllRowsWidth | satprep_snapshot.py:117-122 | every data row has one value per header column |
| Snapshot.ReloginsExactly | satprep_snapshot.py:120-133 | with a threshold of at least 1, the session is renewed after system `j` exactly when `j + 1` is a multiple of the threshold; with a smaller one, never |
| Snapshot.CounterStep | satprep_snapshot.py:124-133 | the counter resets and a re-login is recorded exactly when it reaches threshold - 1 |
| Snapshot.Snapshot | satprep_snapshot.py:98-140 | unwritable output writes nothing; otherwise the header, then every system's rows, with the re-logins above; a system without name or id ends the run after the rows of the systems before it |
| VcVms.MentionsTypeIgnoresCase | satprep_wa_vcvms.py:153 | the OS-type matcher ignores case |
| VcVms.AnyTypeMentioned | satprep_wa_vcvms.py:151-154 | the scan answers true exactly when some listed type occurs in the name |
| VcVms.IsSatelliteManaged | satprep_wa_vcvms.py:147-154 | a name is managed exactly when it mentions one of the known operating systems |
| VcVms.PutGet | satprep_wa_vcvms.py:56 | after `d[k] = m`, `k` maps to `m` and every other key keeps its value |
| VcVms.PutAllOther | satprep_wa_vcvms.py:54-56 | storing entries under other keys leaves a key alone |
| VcVms.PutAllLast | satprep_wa_vcvms.py:54-56 | a key ends up with the last list stored under it |
| VcVms.HolderExactly | satprep_wa_vcvms.py:183-191 | the lookup gives "" when no entry lists the item, otherwise the key of the first entry that does |
| VcVms.HolderEmptyIff | satprep_wa_vcvms.py:159-166 | with no key "", the lookup is "" exactly when no entry lists the item |
| VcVms.FindHolder | satprep_wa_vcvms.py:183-191 | the scan loop returns that first holder |
| VcVms.TargetOf | satprep_wa_vcvms.py:83-85 | a system is targeted by VM name exactly when it records a non-empty VM name |
| VcVms.TargetsExactly | satprep_wa_vcvms.py:78-86 | one target per system; a VM name is a target exactly when some system records it |
| VcVms.RegisterHostsGet | satprep_wa_vcvms.py:69-71 | a registered host gets an empty list, and other keys keep theirs |
| VcVms.RegisteredGet | satprep_wa_vcvms.py:68-72 | every host of a listed datacenter gets an empty list, and other keys keep theirs |
| VcVms.AssignedExactly | satprep_wa_vcvms.py:93-108 | placement raises exactly when some VM's host is not a key; otherwise each host's list grows by the target VMs on it, in order |
| VcVms.CrashStays | satprep_wa_vcvms.py:93-102 | once placement has raised on a prefix of the VM list, it fails on the whole list |
| VcVms.VirtHostUriParts | satprep_wa_vcvms.py:127-133 | the URI is `vpx://` followed by vCenter, datacenter, the cluster when there is one, and the host (with `?no_verify=1` unless verifying), separated by `/` |
| VcVms.UpdateCallsOnlyFound | satprep_wa_vcvms.py:114-142 | a dry run updates nothing; every update is for a system with a virtual host whose VM was found, and carries that host's URI |
| VcVms.UpdateCallsComplete | satprep_wa_vcvms.py:114-142 | outside a dry run, every system with a virtual host whose VM was found is updated |
| VcVms.Placement.constructor | satprep_wa_vcvms.py:14-16 | all tables start empty |
| VcVms.Placement.ScanDatacenters | satprep_wa_vcvms.py:52-57 | the datacenter table takes each listed datacenter's hosts; nothing else changes |
| VcVms.Placement.ScanClusters | satprep_wa_vcvms.py:60-65 | the cluster table takes each listed cluster's hosts; nothing else changes |
| VcVms.Placement.RegisterAllHosts | satprep_wa_vcvms.py:68-72 | every host of every datacenter gets an empty VM list; nothing else changes |
| VcVms.Placement.CollectTargets | satprep_wa_vcvms.py:75-86 | one target per Satellite system is appended |
| VcVms.Placement.AssignVms | satprep_wa_vcvms.py:88-108 | succeeds exactly when placement does, leaving the placed table |
| VcVms.Placement.UpdateVirtHosts | satprep_wa_vcvms.py:111-142 | the `SYSTEM_VIRT_HOST` updates for the systems, none in a dry run |
| VcVms.Run | satprep_wa_vcvms.py:22-142 | exits exactly without both server names; crashes exactly when placement raises; otherwise it issues the updates for the final tables |
| CustomInfos.DefinedByPrefix | satprep_install_custominfos.py:81 | the substring test counts every prefix of a defined name as defined |
| CustomInfos.MonitoringShadowed | satprep_install_custominfos.py:81 | once SYSTEM_MONITORING_NOTES is defined, SYSTEM_MONITORING counts as defined |
| CustomInfos.KeyDecision | satprep_install_custominfos.py:81-91 | a key is created exactly when undefined, overwritten exactly when defined and forced, and left alone otherwise |
| CustomInfos.CreateCallsExactly | satprep_install_custominfos.py:77-91 | every call names a key with its own description; each key is created or overwritten exactly by that rule |
| CustomInfos.NoForceNoUpdate | satprep_install_custominfos.py:81-88 | without force no key is ever overwritten |
| CustomInfos.CustomKeysDistinct | satprep_install_custominfos.py:23-40 | the key table has no duplicate names |
| CustomInfos.CreateEach | satprep_install_custominfos.py:75-97 | the loop issues exactly the decision for each key of the table walked, and the permission warning never fires |
| CustomInfos.CreateCustomKeys | satprep_install_custominfos.py:72-97 | the loop issues the decision for each key, and the permission warning never fires |
| CustomInfos.DeleteCalls | satprep_install_custominfos.py:147-150 | one delete per key |
| CustomInfos.DeleteCallsExactly | satprep_install_custominfos.py:145-155 | the `i`-th delete removes the `i`-th key |
| CustomInfos.FailedKeys | satprep_install_custominfos.py:147-155 | a key is warned about exactly when its delete did not return 1, and no more warnings than keys |
| CustomInfos.DeleteEach | satprep_install_custominfos.py:147-155 | one delete per key, in order; the warnings are `FailedKeys`, once per failed key in table order |
| CustomInfos.RemoveCustomKeys | satprep_install_custominfos.py:145-155 | the uninstall deletes every key of the table, and warns once per failed delete, in table order |
| CustomInfos.Run | satprep_install_custominfos.py:46-68 | exits exactly on a dry run, calling nothing; otherwise it deletes all keys or installs them |

## Left out

- Servers and I/O are inputs or returned values. These include the Satellite XML-RPC API, vCenter (pysphere), libvirt, the monitoring CGI over HTTP, CSV reading and writing, and log output. The model keeps what the scripts read from these services and the calls they issue; it leaves out the wire formats and the logging.
- `satprep_shared.py` is not part of this model. `get_credentials` and `check_if_api_is_supported` are left out. `is_blacklisted`, `is_downtime`, `has_snapshot`, `schedule_downtime` and `create_snapshot` become parameters or returned requests.
- Option parsing (optparse) is left out: the parsed options are inputs.
- Report.At: Python's negative indexes (`row[-1]` reads from the end) are not modelled; `At` gives None for them. No column index the scripts compute is negative, because it is a header position or 666.
- The clock is an input: the freeze date, the report's creation date and the downtime window (`end_time`). `int(hours)` raising ValueError on a non-numeric value is not modelled.
- Server result codes that the scripts only log (clone results 114/115, `setBaseChannel` returning 1, the schedule and snapshot results) are not modelled. Where the script catches an exception from a server call (the guarded calls of `satprep_patch_freeze.py`), the exception is modelled as a reply kind.
- A fault or transport error from a server call that the script does not guard ends the run. This is not modelled: every such call is taken to answer. Examples are `createKey`, `updateKey` and `deleteKey` in `satprep_install_custominfos.py`, `listSystems`, `getCustomValues` and `setCustomValues` in `satprep_wa_vcvms.py`, `getDetails` and `getRelevantErrata` in `satprep_snapshot.py`, `getId` and `getSubscribedBaseChannel` in `satprep_patch_freeze.py`, and the HTTP post in `satprep_schedule_downtime.py`. The `Crashed` outcome of each `Run` covers only the exceptions the model does capture, such as a short report row or a missing key.
- CustomInfos.Run: its `outcome != Crashed` holds because every key call is taken to answer; a fault from `createKey`, `updateKey` or `deleteKey` would end the script.
- The state left behind by a crashing run is not modelled, beyond the calls it already issued.
- `unidecode` on Unicode cells is left out: cells are taken as already ASCII.
- Snapshot.Snapshot: the record lookups `ip`, `lock_status` and the details call are taken as inputs. The KeyErrors they could raise are not modelled, only the one for a missing name or id.
- PatchFreezePlan.RemapSystems: the server's answers are taken to be unaffected by the script's own calls. The remap reads each system's profile, base channel and subscribed child channels again, the child channels right after its own `setBaseChannel`; the model answers both reads from the one inventory the scan used.
- VcVms.Run: the Satellite system list is read twice and taken to be the same both times. The progress counter that only logs (`hit`, `counter`) is left out. The record-field KeyErrors of `listSystems` are not modelled.
- PatchFreeze.SplitOption: `str([v])` is taken to be `['v']`. Python writes a value that holds a quote or a backslash differently, and that case is not modelled.
- `--verify-ssl` takes any string. Since no string equals `False`, the flag is modelled as "given or not".
- Python 2 dictionary hash order is not modelled. Dictionaries are sequences in a fixed order, and the properties hold for every order.
