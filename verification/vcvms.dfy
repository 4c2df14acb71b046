/**
 * satprep_wa_vcvms: records, for every system whose virtual host is tracked in
 * its custom information, where vCenter currently runs its VM, as a
 * `vpx://vcenter/datacenter[/cluster]/esxi` URI.
 *
 * The vCenter inventory (datacenters and clusters with their ESXi hosts, the
 * registered VMs with their runtime hosts) and the Satellite system list are
 * inputs; the custom-value updates are returned as calls.
 */
module VcVms {
  import opened Common
  import opened Strings

  // ---------------------------------------------------------------------------
  // Operating-system matcher

  /** The guest operating systems Satellite can manage. */
  const VmTypes: seq<string> :=
    ["Red Hat Enterprise", "CentOS", "SUSE", "openSUSE", "Debian", "Ubuntu", "Solaris", "Fedora"]

  /** `t` occurs in `name`, ignoring the case of ASCII letters. */
  predicate MentionsType(name: string, t: string) {
    Contains(Lower(name), Lower(t))
  }

  lemma {:induction false} LowerIdempotent(s: string)
    ensures Lower(Lower(s)) == Lower(s)
  {
    var l := Lower(s);
    assert forall j :: 0 <= j < |s| ==> LowerChar(l[j]) == l[j];
  }

  /** The matcher ignores case: a name and its lower-case form match the same types. */
  lemma MentionsTypeIgnoresCase(name: string, t: string)
    ensures MentionsType(Lower(name), t) <==> MentionsType(name, t)
  {
    LowerIdempotent(name);
  }

  /** The scan of `is_satellite_managed` over a list of type names, stopping at the first match. */
  method AnyTypeMentioned(name: string, types: seq<string>) returns (found: bool)
    ensures found <==> exists i :: 0 <= i < |types| && MentionsType(name, types[i])
  {
    var i := 0;
    while i < |types|
      invariant 0 <= i <= |types|
      invariant forall j :: 0 <= j < i ==> !MentionsType(name, types[j])
    {
      if Contains(Lower(name), Lower(types[i])) {
        return true;
      }
      i := i + 1;
    }
    return false;
  }

  /** `is_satellite_managed`: some known operating system is named in `name`. */
  method IsSatelliteManaged(name: string) returns (managed: bool)
    ensures managed <==> exists i :: 0 <= i < |VmTypes| && MentionsType(name, VmTypes[i])
  {
    managed := AnyTypeMentioned(name, VmTypes);
  }

  // ---------------------------------------------------------------------------
  // Dictionaries of string lists

  /** One dictionary entry: a datacenter, cluster or ESXi host and the names listed under it. */
  datatype Entry = Entry(key: string, members: seq<string>)

  /** A dictionary from names to lists of names, in its iteration order. */
  type Table = seq<Entry>

  function Get(t: Table, k: string): Option<seq<string>> {
    if t == [] then None
    else if t[0].key == k then Some(t[0].members)
    else Get(t[1..], k)
  }

  /** `t[k] = m`: an existing entry keeps its place, a new one goes last. */
  function Put(t: Table, k: string, m: seq<string>): Table {
    if t == [] then [Entry(k, m)]
    else if t[0].key == k then [Entry(k, m)] + t[1..]
    else [t[0]] + Put(t[1..], k, m)
  }

  /** After `t[k] = m`, `k` maps to `m` and every other key to what it mapped to before. */
  lemma {:induction false} PutGet(t: Table, k: string, m: seq<string>, k': string)
    ensures Get(Put(t, k, m), k') == if k' == k then Some(m) else Get(t, k')
    decreases |t|
  {
    if t != [] && t[0].key != k {
      PutGet(t[1..], k, m, k');
      assert Put(t, k, m)[1..] == Put(t[1..], k, m);
    }
  }

  /** `t[e.key] = e.members` for each entry of `es`, in order. */
  function PutAll(t: Table, es: Table): Table {
    if es == [] then t
    else Put(PutAll(t, es[..|es| - 1]), es[|es| - 1].key, es[|es| - 1].members)
  }

  /** Storing entries under other keys leaves a key's list alone. */
  lemma {:induction false} PutAllOther(t: Table, es: Table, k: string)
    requires forall i :: 0 <= i < |es| ==> es[i].key != k
    ensures Get(PutAll(t, es), k) == Get(t, k)
    decreases |es|
  {
    if es != [] {
      var init := es[..|es| - 1];
      assert forall i :: 0 <= i < |init| ==> init[i] == es[i];
      PutAllOther(t, init, k);
      PutGet(PutAll(t, init), es[|es| - 1].key, es[|es| - 1].members, k);
    }
  }

  /** After storing several entries, a key maps to the last list stored under it. */
  lemma {:induction false} PutAllLast(t: Table, es: Table, k: string, i: int)
    requires 0 <= i < |es| && es[i].key == k && forall j :: i < j < |es| ==> es[j].key != k
    ensures Get(PutAll(t, es), k) == Some(es[i].members)
    decreases |es|
  {
    var init := es[..|es| - 1];
    assert forall j :: 0 <= j < |init| ==> init[j] == es[j];
    PutGet(PutAll(t, init), es[|es| - 1].key, es[|es| - 1].members, k);
    if i < |es| - 1 {
      PutAllLast(t, init, k, i);
    }
  }

  /** The keys of a table, in order. */
  function Keys(t: Table): (ks: seq<string>)
    ensures |ks| == |t| && forall i :: 0 <= i < |t| ==> ks[i] == t[i].key
  {
    if t == [] then [] else [t[0].key] + Keys(t[1..])
  }

  /** The key of the first entry listing `x`, or "" when none does. */
  function Holder(t: Table, x: string): string {
    if t == [] then ""
    else if x in t[0].members then t[0].key
    else Holder(t[1..], x)
  }

  /**
   * The lookup answers "" when no entry lists `x`, and otherwise the key of the
   * first entry that does.
   */
  lemma {:induction false} HolderExactly(t: Table, x: string)
    ensures (forall k :: 0 <= k < |t| ==> x !in t[k].members) ==> Holder(t, x) == ""
    ensures (exists k :: 0 <= k < |t| && x in t[k].members) ==>
              exists k :: 0 <= k < |t| && x in t[k].members && Holder(t, x) == t[k].key
                          && forall j :: 0 <= j < k ==> x !in t[j].members
    decreases |t|
  {
    if t != [] && x !in t[0].members {
      HolderExactly(t[1..], x);
      if exists k :: 0 <= k < |t| && x in t[k].members {
        var k :| 0 <= k < |t| && x in t[k].members;
        assert x in t[1..][k - 1].members;
        var k' :| 0 <= k' < |t[1..]| && x in t[1..][k'].members && Holder(t[1..], x) == t[1..][k'].key
                  && forall j :: 0 <= j < k' ==> x !in t[1..][j].members;
        assert forall j :: 0 <= j < k' + 1 ==> x !in t[j].members by {
          forall j | 0 <= j < k' + 1 ensures x !in t[j].members {
            if j > 0 {
              assert t[j] == t[1..][j - 1];
            }
          }
        }
        assert t[k' + 1] == t[1..][k'];
      }
    }
  }

  /** With no entry keyed "", the lookup answers "" exactly when no entry lists `x`. */
  lemma HolderEmptyIff(t: Table, x: string)
    requires forall k :: 0 <= k < |t| ==> t[k].key != ""
    ensures Holder(t, x) == "" <==> forall k :: 0 <= k < |t| ==> x !in t[k].members
  {
    HolderExactly(t, x);
  }

  /**
   * `get_datacenter_by_ESXi_host`, `get_cluster_by_ESXi_host` and
   * `get_ESXi_host_by_vm`: scan the entries in order, return the first key whose
   * list holds `x`, and "" after the last.
   */
  method FindHolder(t: Table, x: string) returns (key: string)
    ensures key == Holder(t, x)
  {
    var i := 0;
    while i < |t|
      invariant 0 <= i <= |t|
      invariant Holder(t, x) == Holder(t[i..], x)
    {
      assert t[i..][1..] == t[i + 1..];
      if x in t[i].members {
        return t[i].key;
      }
      i := i + 1;
    }
    return "";
  }

  // ---------------------------------------------------------------------------
  // Satellite systems and their targets

  /** A system from the Satellite list with its custom information values. */
  datatype SatSystem = SatSystem(name: string, id: int, custom: map<string, string>)

  /** A `target_vms` entry: the VM name when one is recorded, else the system record itself. */
  datatype Target = ByName(vmName: string) | Record(system: SatSystem)

  predicate HasValue(custom: map<string, string>, key: string) {
    key in custom && custom[key] != ""
  }

  function TargetOf(sys: SatSystem): (t: Target)
    ensures t.ByName? <==> HasValue(sys.custom, "SYSTEM_VIRT_VMNAME")
  {
    if HasValue(sys.custom, "SYSTEM_VIRT_VMNAME") then ByName(sys.custom["SYSTEM_VIRT_VMNAME"])
    else Record(sys)
  }

  function Targets(systems: seq<SatSystem>): seq<Target> {
    if systems == [] then []
    else Targets(systems[..|systems| - 1]) + [TargetOf(systems[|systems| - 1])]
  }

  /**
   * A VM name is a target exactly when some system records it as its VM name:
   * a system record in the list never equals a name.
   */
  lemma {:induction false} TargetsExactly(systems: seq<SatSystem>, v: string)
    ensures ByName(v) in Targets(systems) <==>
              exists k :: 0 <= k < |systems| && HasValue(systems[k].custom, "SYSTEM_VIRT_VMNAME")
                          && systems[k].custom["SYSTEM_VIRT_VMNAME"] == v
    ensures |Targets(systems)| == |systems|
    decreases |systems|
  {
    if systems != [] {
      var init := systems[..|systems| - 1];
      TargetsExactly(init, v);
      assert forall k :: 0 <= k < |init| ==> init[k] == systems[k];
    }
  }

  // ---------------------------------------------------------------------------
  // Placing VMs on hosts

  /** A registered VM: its name and the ESXi host it runs on. */
  datatype Vm = Vm(name: string, runtimeHost: string)

  /** `host_vms[h] = []` for every host of the named datacenters, in order. */
  function RegisterHosts(hv: Table, hosts: seq<string>): Table {
    if hosts == [] then hv
    else Put(RegisterHosts(hv, hosts[..|hosts| - 1]), hosts[|hosts| - 1], [])
  }

  function Registered(hv: Table, hostsByDc: Table, dcNames: seq<string>): Table {
    if dcNames == [] then hv
    else
      var before := Registered(hv, hostsByDc, dcNames[..|dcNames| - 1]);
      RegisterHosts(before, HostsOf(hostsByDc, dcNames[|dcNames| - 1]))
  }

  /** Registering hosts gives each an empty list and leaves every other entry alone. */
  lemma {:induction false} RegisterHostsGet(hv: Table, hosts: seq<string>, h: string)
    ensures Get(RegisterHosts(hv, hosts), h) == if h in hosts then Some([]) else Get(hv, h)
    decreases |hosts|
  {
    if hosts != [] {
      var init := hosts[..|hosts| - 1];
      RegisterHostsGet(hv, init, h);
      PutGet(RegisterHosts(hv, init), hosts[|hosts| - 1], [], h);
      assert hosts == init + [hosts[|hosts| - 1]];
    }
  }

  /** The hosts listed under datacenter `name`, none when it is unknown. */
  function HostsOf(hostsByDc: Table, name: string): seq<string> {
    var hosts := Get(hostsByDc, name);
    if hosts.Some? then hosts.value else []
  }

  /**
   * After registration every host of a named datacenter has an empty VM list,
   * and every other key keeps its list.
   */
  lemma {:induction false} RegisteredGet(hv: Table, hostsByDc: Table, dcNames: seq<string>, h: string)
    ensures Get(Registered(hv, hostsByDc, dcNames), h) ==
              if exists i :: 0 <= i < |dcNames| && h in HostsOf(hostsByDc, dcNames[i]) then Some([]) else Get(hv, h)
    decreases |dcNames|
  {
    if dcNames != [] {
      var init := dcNames[..|dcNames| - 1];
      RegisteredGet(hv, hostsByDc, init, h);
      RegisterHostsGet(Registered(hv, hostsByDc, init), HostsOf(hostsByDc, dcNames[|dcNames| - 1]), h);
      assert forall i :: 0 <= i < |init| ==> init[i] == dcNames[i];
    }
  }

  /**
   * Append a VM to its host's list when it is a target; None where the host is no
   * key of `host_vms`, which raises KeyError whether or not the VM is a target.
   */
  function AssignVm(hv: Table, targets: seq<Target>, vm: Vm): Option<Table> {
    match Get(hv, vm.runtimeHost)
    case None => None
    case Some(list) =>
      if ByName(vm.name) in targets then Some(Put(hv, vm.runtimeHost, list + [vm.name])) else Some(hv)
  }

  function Assigned(hv: Table, targets: seq<Target>, vms: seq<Vm>): Option<Table> {
    if vms == [] then Some(hv)
    else
      match Assigned(hv, targets, vms[..|vms| - 1])
      case None => None
      case Some(before) => AssignVm(before, targets, vms[|vms| - 1])
  }

  /** The target VMs running on host `h`, in the order vCenter lists them. */
  function VmsOn(vms: seq<Vm>, targets: seq<Target>, h: string): seq<string> {
    if vms == [] then []
    else
      var vm := vms[|vms| - 1];
      VmsOn(vms[..|vms| - 1], targets, h) + (if vm.runtimeHost == h && ByName(vm.name) in targets then [vm.name] else [])
  }

  /** Some VM runs on a host that is no key of the table. */
  predicate StrayHost(hv: Table, vms: seq<Vm>) {
    exists k :: 0 <= k < |vms| && Get(hv, vms[k].runtimeHost).None?
  }

  /**
   * Placement fails exactly when some VM runs on an unknown host; otherwise each
   * host's list grows by the target VMs that run on it, and no key is added.
   */
  lemma {:induction false} AssignedExactly(hv: Table, targets: seq<Target>, vms: seq<Vm>, h: string)
    ensures Assigned(hv, targets, vms).None? <==> StrayHost(hv, vms)
    ensures Assigned(hv, targets, vms).Some? ==>
              Get(Assigned(hv, targets, vms).value, h) ==
                (if Get(hv, h).Some? then Some(Get(hv, h).value + VmsOn(vms, targets, h)) else None)
    decreases |vms|
  {
    if vms != [] {
      var init := vms[..|vms| - 1];
      var vm := vms[|vms| - 1];
      AssignedExactly(hv, targets, init, h);
      AssignedExactly(hv, targets, init, vm.runtimeHost);
      assert forall k :: 0 <= k < |init| ==> init[k] == vms[k];
      match Assigned(hv, targets, init)
      case None =>
        var k :| 0 <= k < |init| && Get(hv, init[k].runtimeHost).None?;
        assert Get(hv, vms[k].runtimeHost).None?;
      case Some(before) =>
        assert !StrayHost(hv, init);
        match Get(before, vm.runtimeHost)
        case None =>
          assert Get(hv, vms[|vms| - 1].runtimeHost).None?;
        case Some(list) =>
          assert !StrayHost(hv, vms) by {
            forall k | 0 <= k < |vms| ensures Get(hv, vms[k].runtimeHost).Some? {
              if k < |init| {
                assert vms[k] == init[k];
              }
            }
          }
          assert vms[..|vms| - 1] == init;
          assert Assigned(hv, targets, vms) == AssignVm(before, targets, vm);
          assert VmsOn(vms, targets, h) ==
                   VmsOn(init, targets, h) + (if vm.runtimeHost == h && ByName(vm.name) in targets then [vm.name] else []);
          if ByName(vm.name) in targets {
            PutGet(before, vm.runtimeHost, list + [vm.name], h);
            if h == vm.runtimeHost {
              assert list == Get(hv, h).value + VmsOn(init, targets, h);
              assert list + [vm.name] == Get(hv, h).value + (VmsOn(init, targets, h) + [vm.name]);
            } else {
              assert VmsOn(vms, targets, h) == VmsOn(init, targets, h);
            }
          } else {
            assert VmsOn(vms, targets, h) == VmsOn(init, targets, h);
          }
    } else if Get(hv, h).Some? {
      assert Get(hv, h).value + VmsOn(vms, targets, h) == Get(hv, h).value;
    }
  }

  // ---------------------------------------------------------------------------
  // The custom-value update

  /**
   * The URI that tells libvirt where the VM runs: with the cluster when the host
   * belongs to one, and `?no_verify=1` when certificates are not to be checked.
   */
  function VirtHostUri(vcServer: string, dc: string, cluster: string, esxi: string, vcVerify: bool)
    : string
  {
    var path := if cluster != "" then vcServer + "/" + dc + "/" + cluster + "/" + esxi
                else vcServer + "/" + dc + "/" + esxi;
    "vpx://" + path + (if vcVerify then "" else "?no_verify=1")
  }

  /** The last path component: the host, with the query when certificates are not checked. */
  lemma LastComponent(esxi: string, vcVerify: bool)
    requires '/' !in esxi
    ensures '/' !in esxi + (if vcVerify then "" else "?no_verify=1")
  {
    var q := if vcVerify then "" else "?no_verify=1";
    assert '/' !in q;
  }

  lemma SplitThree(a: string, b: string, c: string, sep: char)
    requires sep !in a && sep !in b && sep !in c
    ensures Split(a + [sep] + (b + [sep] + c), sep) == [a, b, c]
  {
    SplitCons(a, b + [sep] + c, sep);
    SplitTwo(b, c, sep);
  }

  lemma SplitFour(a: string, b: string, c: string, d: string, sep: char)
    requires sep !in a && sep !in b && sep !in c && sep !in d
    ensures Split(a + [sep] + (b + [sep] + (c + [sep] + d)), sep) == [a, b, c, d]
  {
    SplitCons(a, b + [sep] + (c + [sep] + d), sep);
    SplitThree(b, c, d, sep);
  }

  lemma SchemeSplits(path: string)
    ensures ("vpx://" + path)[..6] == "vpx://" && ("vpx://" + path)[6..] == path
  {
  }

  /** The URI with a cluster splits into its four path components. */
  lemma ClusterUriSplits(vcServer: string, dc: string, cluster: string, esxi: string, q: string)
    requires '/' !in vcServer && '/' !in dc && '/' !in cluster && '/' !in esxi + q
    ensures var r := "vpx://" + (vcServer + "/" + dc + "/" + cluster + "/" + esxi) + q;
            r[..6] == "vpx://" && Split(r[6..], '/') == [vcServer, dc, cluster, esxi + q]
  {
    var path := vcServer + "/" + dc + "/" + cluster + "/" + esxi;
    var r := "vpx://" + path + q;
    assert r == "vpx://" + (path + q);
    SchemeSplits(path + q);
    assert path + q == vcServer + ['/'] + (dc + ['/'] + (cluster + ['/'] + (esxi + q)));
    SplitFour(vcServer, dc, cluster, esxi + q, '/');
  }

  /** The URI without a cluster splits into its three path components. */
  lemma HostUriSplits(vcServer: string, dc: string, esxi: string, q: string)
    requires '/' !in vcServer && '/' !in dc && '/' !in esxi + q
    ensures var r := "vpx://" + (vcServer + "/" + dc + "/" + esxi) + q;
            r[..6] == "vpx://" && Split(r[6..], '/') == [vcServer, dc, esxi + q]
  {
    var path := vcServer + "/" + dc + "/" + esxi;
    var r := "vpx://" + path + q;
    assert r == "vpx://" + (path + q);
    SchemeSplits(path + q);
    assert path + q == vcServer + ['/'] + (dc + ['/'] + (esxi + q));
    SplitThree(vcServer, dc, esxi + q, '/');
  }

  /** The URI splits back into vCenter, datacenter, optional cluster and host. */
  lemma VirtHostUriParts(vcServer: string, dc: string, cluster: string, esxi: string, vcVerify: bool)
    requires '/' !in vcServer && '/' !in dc && '/' !in cluster && '/' !in esxi
    ensures VirtHostUri(vcServer, dc, cluster, esxi, vcVerify)[..6] == "vpx://"
    ensures cluster != "" ==>
              Split(VirtHostUri(vcServer, dc, cluster, esxi, vcVerify)[6..], '/')
                == [vcServer, dc, cluster, esxi + (if vcVerify then "" else "?no_verify=1")]
    ensures cluster == "" ==>
              Split(VirtHostUri(vcServer, dc, cluster, esxi, vcVerify)[6..], '/')
                == [vcServer, dc, esxi + (if vcVerify then "" else "?no_verify=1")]
  {
    var q := if vcVerify then "" else "?no_verify=1";
    LastComponent(esxi, vcVerify);
    var r := VirtHostUri(vcServer, dc, cluster, esxi, vcVerify);
    if cluster != "" {
      assert r == "vpx://" + (vcServer + "/" + dc + "/" + cluster + "/" + esxi) + q;
      ClusterUriSplits(vcServer, dc, cluster, esxi, q);
    } else {
      assert r == "vpx://" + (vcServer + "/" + dc + "/" + esxi) + q;
      HostUriSplits(vcServer, dc, esxi, q);
    }
  }

  /** `setCustomValues(key, id, {"SYSTEM_VIRT_HOST": value})`. */
  datatype SetCall = SetVirtHost(id: int, value: string)

  /** The ESXi host found for a system: by its VM name when recorded, else by its name. */
  function EsxiOf(sys: SatSystem, hostVms: Table): string {
    Holder(hostVms, if HasValue(sys.custom, "SYSTEM_VIRT_VMNAME") then sys.custom["SYSTEM_VIRT_VMNAME"] else sys.name)
  }

  /** The update issued for one system, if any. */
  function UpdateCall(sys: SatSystem, vcServer: string, vcVerify: bool, dryrun: bool,
                      hostsByDc: Table, hostsByCluster: Table, hostVms: Table): Option<SetCall>
  {
    if !HasValue(sys.custom, "SYSTEM_VIRT_HOST") then None
    else
      var esxi := EsxiOf(sys, hostVms);
      var uri := VirtHostUri(vcServer, Holder(hostsByDc, esxi), Holder(hostsByCluster, esxi), esxi, vcVerify);
      if dryrun || esxi == "" then None else Some(SetVirtHost(sys.id, uri))
  }

  function UpdateCalls(systems: seq<SatSystem>, vcServer: string, vcVerify: bool, dryrun: bool,
                       hostsByDc: Table, hostsByCluster: Table, hostVms: Table): seq<SetCall>
  {
    if systems == [] then []
    else
      var c := UpdateCall(systems[|systems| - 1], vcServer, vcVerify, dryrun, hostsByDc, hostsByCluster, hostVms);
      UpdateCalls(systems[..|systems| - 1], vcServer, vcVerify, dryrun, hostsByDc, hostsByCluster, hostVms)
        + (if c.Some? then [c.value] else [])
  }

  /**
   * A dry run updates nothing, and otherwise every update is for a system with a
   * virtual host recorded and a VM found on some ESXi host, carrying that
   * host's URI.
   */
  lemma {:induction false} UpdateCallsOnlyFound(systems: seq<SatSystem>, vcServer: string, vcVerify: bool,
                                                dryrun: bool, hostsByDc: Table, hostsByCluster: Table,
                                                hostVms: Table)
    ensures dryrun ==> UpdateCalls(systems, vcServer, vcVerify, dryrun, hostsByDc, hostsByCluster, hostVms) == []
    ensures forall c :: c in UpdateCalls(systems, vcServer, vcVerify, dryrun, hostsByDc, hostsByCluster, hostVms) ==>
              exists k :: 0 <= k < |systems| && HasValue(systems[k].custom, "SYSTEM_VIRT_HOST")
                          && EsxiOf(systems[k], hostVms) != "" && c.id == systems[k].id
                          && c.value == VirtHostUri(vcServer, Holder(hostsByDc, EsxiOf(systems[k], hostVms)),
                                                    Holder(hostsByCluster, EsxiOf(systems[k], hostVms)),
                                                    EsxiOf(systems[k], hostVms), vcVerify)
    decreases |systems|
  {
    if systems != [] {
      var init := systems[..|systems| - 1];
      UpdateCallsOnlyFound(init, vcServer, vcVerify, dryrun, hostsByDc, hostsByCluster, hostVms);
      assert forall k :: 0 <= k < |init| ==> init[k] == systems[k];
    }
  }

  /** Outside a dry run, every system with a virtual host recorded and a VM found is updated. */
  lemma {:induction false} UpdateCallsComplete(systems: seq<SatSystem>, vcServer: string, vcVerify: bool,
                                               hostsByDc: Table, hostsByCluster: Table, hostVms: Table, k: int)
    requires 0 <= k < |systems| && HasValue(systems[k].custom, "SYSTEM_VIRT_HOST")
    requires EsxiOf(systems[k], hostVms) != ""
    ensures UpdateCall(systems[k], vcServer, vcVerify, false, hostsByDc, hostsByCluster, hostVms).value
              in UpdateCalls(systems, vcServer, vcVerify, false, hostsByDc, hostsByCluster, hostVms)
    decreases |systems|
  {
    var init := systems[..|systems| - 1];
    if k < |systems| - 1 {
      assert systems[k] == init[k];
      UpdateCallsComplete(init, vcServer, vcVerify, hostsByDc, hostsByCluster, hostVms, k);
    }
  }

  // ---------------------------------------------------------------------------
  // main

  /** The dictionaries `main` fills in place. */
  class Placement {
    var hostsByDc: Table
    var hostsByCluster: Table
    var hostVms: Table
    var targetVms: seq<Target>

    constructor()
      ensures hostsByDc == [] && hostsByCluster == [] && hostVms == [] && targetVms == []
    {
      hostsByDc, hostsByCluster, hostVms, targetVms := [], [], [], [];
    }

    /** `hosts_by_dc[name] = hosts` for each datacenter vCenter lists. */
    method ScanDatacenters(dcs: Table)
      modifies this
      ensures hostsByDc == PutAll(old(hostsByDc), dcs)
      ensures hostsByCluster == old(hostsByCluster) && hostVms == old(hostVms) && targetVms == old(targetVms)
    {
      var i := 0;
      while i < |dcs|
        invariant 0 <= i <= |dcs|
        invariant hostsByDc == PutAll(old(hostsByDc), dcs[..i])
        invariant hostsByCluster == old(hostsByCluster) && hostVms == old(hostVms) && targetVms == old(targetVms)
      {
        assert dcs[..i + 1][..i] == dcs[..i];
        hostsByDc := Put(hostsByDc, dcs[i].key, dcs[i].members);
        i := i + 1;
      }
      assert dcs[..i] == dcs;
    }

    /** `hosts_by_cluster[name] = hosts` for each cluster vCenter lists. */
    method ScanClusters(clusters: Table)
      modifies this
      ensures hostsByCluster == PutAll(old(hostsByCluster), clusters)
      ensures hostsByDc == old(hostsByDc) && hostVms == old(hostVms) && targetVms == old(targetVms)
    {
      var i := 0;
      while i < |clusters|
        invariant 0 <= i <= |clusters|
        invariant hostsByCluster == PutAll(old(hostsByCluster), clusters[..i])
        invariant hostsByDc == old(hostsByDc) && hostVms == old(hostVms) && targetVms == old(targetVms)
      {
        assert clusters[..i + 1][..i] == clusters[..i];
        hostsByCluster := Put(hostsByCluster, clusters[i].key, clusters[i].members);
        i := i + 1;
      }
      assert clusters[..i] == clusters;
    }

    /** `host_vms[host] = []` for every host of every datacenter, datacenter by datacenter. */
    method RegisterAllHosts(dcNames: seq<string>)
      modifies this
      ensures hostVms == Registered(old(hostVms), hostsByDc, dcNames)
      ensures hostsByDc == old(hostsByDc) && hostsByCluster == old(hostsByCluster) && targetVms == old(targetVms)
    {
      var i := 0;
      while i < |dcNames|
        invariant 0 <= i <= |dcNames|
        invariant hostVms == Registered(old(hostVms), hostsByDc, dcNames[..i])
        invariant hostsByDc == old(hostsByDc) && hostsByCluster == old(hostsByCluster) && targetVms == old(targetVms)
      {
        assert dcNames[..i + 1][..i] == dcNames[..i];
        var found := Get(hostsByDc, dcNames[i]);
        var hosts := if found.Some? then found.value else [];
        ghost var before := hostVms;
        var j := 0;
        while j < |hosts|
          invariant 0 <= j <= |hosts|
          invariant hostVms == RegisterHosts(before, hosts[..j])
          invariant hostsByDc == old(hostsByDc) && hostsByCluster == old(hostsByCluster) && targetVms == old(targetVms)
        {
          assert hosts[..j + 1][..j] == hosts[..j];
          hostVms := Put(hostVms, hosts[j], []);
          j := j + 1;
        }
        assert hosts[..j] == hosts;
        i := i + 1;
      }
      assert dcNames[..i] == dcNames;
    }

    /** One `target_vms` entry per Satellite system, in list order. */
    method CollectTargets(systems: seq<SatSystem>)
      modifies this
      ensures targetVms == old(targetVms) + Targets(systems)
      ensures hostsByDc == old(hostsByDc) && hostsByCluster == old(hostsByCluster) && hostVms == old(hostVms)
    {
      var i := 0;
      while i < |systems|
        invariant 0 <= i <= |systems|
        invariant targetVms == old(targetVms) + Targets(systems[..i])
        invariant hostsByDc == old(hostsByDc) && hostsByCluster == old(hostsByCluster) && hostVms == old(hostVms)
      {
        assert systems[..i + 1][..i] == systems[..i];
        targetVms := targetVms + [TargetOf(systems[i])];
        i := i + 1;
      }
      assert systems[..i] == systems;
    }

    /**
     * Append each target VM to its runtime host's list. False where a VM's host is
     * no key of `host_vms`: the progress log reads that list even for VMs that are
     * not targets, and raises KeyError.
     */
    method AssignVms(vms: seq<Vm>) returns (ok: bool)
      modifies this
      ensures ok <==> Assigned(old(hostVms), targetVms, vms).Some?
      ensures ok ==> hostVms == Assigned(old(hostVms), targetVms, vms).value
      ensures hostsByDc == old(hostsByDc) && hostsByCluster == old(hostsByCluster) && targetVms == old(targetVms)
    {
      var i := 0;
      while i < |vms|
        invariant 0 <= i <= |vms|
        invariant Assigned(old(hostVms), targetVms, vms[..i]) == Some(hostVms)
        invariant hostsByDc == old(hostsByDc) && hostsByCluster == old(hostsByCluster) && targetVms == old(targetVms)
      {
        assert vms[..i + 1][..i] == vms[..i];
        var vm := vms[i];
        var list := Get(hostVms, vm.runtimeHost);
        if list.None? {
          CrashStays(old(hostVms), targetVms, vms, i + 1);
          assert vms[..i + 1] == vms[..i] + [vm];
          return false;
        }
        if ByName(vm.name) in targetVms {
          hostVms := Put(hostVms, vm.runtimeHost, list.value + [vm.name]);
        }
        i := i + 1;
      }
      assert vms[..i] == vms;
      return true;
    }

    /**
     * The second pass over the Satellite systems: the `SYSTEM_VIRT_HOST` updates,
     * none in a dry run.
     */
    method UpdateVirtHosts(systems: seq<SatSystem>, vcServer: string, vcVerify: bool, dryrun: bool)
      returns (calls: seq<SetCall>)
      ensures calls == UpdateCalls(systems, vcServer, vcVerify, dryrun, hostsByDc, hostsByCluster, hostVms)
    {
      calls := [];
      var i := 0;
      while i < |systems|
        invariant 0 <= i <= |systems|
        invariant calls == UpdateCalls(systems[..i], vcServer, vcVerify, dryrun, hostsByDc, hostsByCluster, hostVms)
      {
        assert systems[..i + 1][..i] == systems[..i];
        var sys := systems[i];
        if HasValue(sys.custom, "SYSTEM_VIRT_HOST") {
          var vmName := if HasValue(sys.custom, "SYSTEM_VIRT_VMNAME") then sys.custom["SYSTEM_VIRT_VMNAME"] else sys.name;
          var esxi := FindHolder(hostVms, vmName);
          var cluster := FindHolder(hostsByCluster, esxi);
          var dc := FindHolder(hostsByDc, esxi);
          var value := VirtHostUri(vcServer, dc, cluster, esxi, vcVerify);
          if !dryrun && esxi != "" {
            calls := calls + [SetVirtHost(sys.id, value)];
          }
        }
        i := i + 1;
      }
      assert systems[..i] == systems;
    }
  }

  /** Once placement fails on a prefix of the VM list it fails on the whole list. */
  lemma {:induction false} CrashStays(hv: Table, targets: seq<Target>, vms: seq<Vm>, n: int)
    requires 0 <= n <= |vms| && Assigned(hv, targets, vms[..n]).None?
    ensures Assigned(hv, targets, vms).None?
    decreases |vms| - n
  {
    if n < |vms| {
      assert vms[..n + 1][..n] == vms[..n];
      CrashStays(hv, targets, vms, n + 1);
    } else {
      assert vms[..n] == vms;
    }
  }

  /** The `host_vms` table `main` ends with, or None where placement raises. */
  function Placed(dcs: Table, systems: seq<SatSystem>, vms: seq<Vm>): Option<Table> {
    Assigned(Registered([], PutAll([], dcs), Keys(dcs)), Targets(systems), vms)
  }

  /**
   * `main`: without both server names it exits; otherwise it reads the vCenter
   * inventory, collects the targets, places the VMs and issues the updates.
   * The Satellite system list is read twice and taken to be the same both times.
   */
  method Run(vcServer: string, satServer: string, vcVerify: bool, dryrun: bool,
             dcs: Table, clusters: Table, systems: seq<SatSystem>, vms: seq<Vm>)
    returns (outcome: Outcome, calls: seq<SetCall>)
    ensures outcome == Exited <==> vcServer == "" || satServer == ""
    ensures outcome == Crashed <==> outcome != Exited && Placed(dcs, systems, vms).None?
    ensures outcome != Completed ==> calls == []
    ensures outcome == Completed ==>
              calls == UpdateCalls(systems, vcServer, vcVerify, dryrun, PutAll([], dcs), PutAll([], clusters),
                                   Placed(dcs, systems, vms).value)
  {
    if vcServer == "" || satServer == "" {
      return Exited, [];
    }
    var p := new Placement();
    p.ScanDatacenters(dcs);
    p.ScanClusters(clusters);
    p.RegisterAllHosts(Keys(dcs));
    p.CollectTargets(systems);
    assert p.targetVms == Targets(systems);
    assert p.hostsByDc == PutAll([], dcs);
    var ok := p.AssignVms(vms);
    if !ok {
      return Crashed, [];
    }
    calls := p.UpdateVirtHosts(systems, vcServer, vcVerify, dryrun);
    outcome := Completed;
  }
}
