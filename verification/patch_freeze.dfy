/**
 * satprep_patch_freeze: freezing the software channels of a set of managed systems.
 *
 * The script resolves its target systems, scans their base and child channels into a
 * channel tree (`myChannels`), clones every channel of the tree under a frozen label
 * and remaps the systems onto the clones; with `--unfreeze` it remaps the systems back
 * and deletes the clones. The management server is not modelled: what the server
 * knows is an `Inventory` given as input, and every call that changes the server is
 * returned, in order, as a `Call`.
 */
module PatchFreeze {
  import opened Common
  import opened Strings

  /** The marker that identifies a frozen channel label. */
  const Marker := "-satprep"

  /** The default of `--date`, which the script replaces by the current date. */
  const DateSentinel := "wingardiumleviosa"

  const CloneSummary := "Software channel cloned by Satprep"

  // ---------------------------------------------------------------------------
  // Channel labels

  /** The label of the clone of channel `c` for a freeze under `tag` on `date`. */
  function FrozenLabel(c: string, tag: string, date: string): string {
    c + "-" + tag + "-" + date
  }

  /** Channel discovery: a label is cut at its first "-satprep", if it has one. */
  function CleanLabel(l: string): (r: string)
    ensures |r| <= |l| && r == l[..|r|]
  {
    if |l| < |Marker| then l
    else if l[..|Marker|] == Marker then ""
    else [l[0]] + CleanLabel(l[1..])
  }

  /** The cut is the script's expression: `l[:l.find("-satprep")]` when "-satprep" is in `l`, else `l`. */
  lemma {:induction false} CleanLabelIsFindCut(l: string)
    ensures CleanLabel(l) == if Contains(l, Marker) then l[..Find(l, Marker)] else l
    decreases |l|
  {
    if |l| < |Marker| {
      assert forall j :: !OccursAt(l, Marker, j);
    } else if l[..|Marker|] == Marker {
      ContainsAt(l, Marker, 0);
    } else {
      CleanLabelIsFindCut(l[1..]);
      FindShift(l, Marker);
      assert l == [l[0]] + l[1..];
      if Contains(l, Marker) {
        assert l[..Find(l, Marker)] == [l[0]] + l[1..][..Find(l[1..], Marker)];
      }
    }
  }

  /** A cleaned label never holds the marker, so cleaning twice changes nothing. */
  lemma CleanLabelIdempotent(l: string)
    ensures !Contains(CleanLabel(l), Marker)
    ensures CleanLabel(CleanLabel(l)) == CleanLabel(l)
  {
    CleanLabelIsFindCut(l);
    if Contains(l, Marker) {
      BeforeFindClean(l, Marker);
    }
    CleanLabelIsFindCut(CleanLabel(l));
  }

  /** The unfreeze remap: `l[:l.find("-satprep")]`, taken without testing for the marker. */
  function UnfreezeLabel(l: string): string {
    Slice(l, 0, Find(l, Marker))
  }

  /** Without the marker the find yields -1, and the slice drops the last character. */
  lemma UnfreezeWithoutMarker(l: string)
    requires !Contains(l, Marker)
    ensures l != [] ==> UnfreezeLabel(l) == l[..|l| - 1]
    ensures l == [] ==> UnfreezeLabel(l) == []
  {
  }

  /** The marker's one '-' is its first character. */
  lemma MarkerDashOnlyAtStart()
    ensures |Marker| == 8 && Marker[0] == '-'
    ensures forall k :: 1 <= k < |Marker| ==> Marker[k] != '-'
  {
  }

  lemma FirstMarkerAfter(c: string, rest: string)
    requires !Contains(c, Marker)
    requires OccursAt(c + rest, Marker, |c|)
    ensures Find(c + rest, Marker) == |c|
  {
    var f := c + rest;
    ContainsAt(f, Marker, |c|);
    MarkerDashOnlyAtStart();
    assert f[..|c|] == c;
    assert f[|c|] == '-' by {
      assert f[|c|..|c| + |Marker|][0] == f[|c|];
    }
    forall j | 0 <= j < |c| ensures !OccursAt(f, Marker, j) {
      if j + |Marker| <= |c| {
        assert !OccursAt(c, Marker, j);
        assert f[j..j + |Marker|] == c[j..j + |Marker|];
      } else if j + |Marker| <= |f| {
        assert f[j..j + |Marker|][|c| - j] == '-';
        assert Marker[|c| - j] != '-';
      }
    }
  }

  /**
   * Freeze and unfreeze are inverse on labels: when the channel label has no marker
   * and the freeze label `tag` starts with "satprep", both the unfreeze remap and the
   * discovery clean-up recover the channel from its clone's label.
   */
  lemma UnfreezeRecoversChannel(c: string, tag: string, date: string)
    requires !Contains(c, Marker)
    requires |tag| >= 7 && tag[..7] == "satprep"
    ensures UnfreezeLabel(FrozenLabel(c, tag, date)) == c
    ensures CleanLabel(FrozenLabel(c, tag, date)) == c
  {
    var f := FrozenLabel(c, tag, date);
    assert f == c + ("-" + tag + "-" + date);
    assert f[|c|..|c| + 8] == "-" + tag[..7];
    FirstMarkerAfter(c, "-" + tag + "-" + date);
    assert f[..|c|] == c;
    CleanLabelIsFindCut(f);
  }

  /**
   * The label check accepts "satprep" anywhere, but the round trip needs it at the
   * start: a freeze labelled "web-satprep" is remapped back to "<channel>-web".
   */
  lemma UnfreezeWithInnerSatprep(date: string)
    ensures Contains("web-satprep", "satprep")
    ensures UnfreezeLabel(FrozenLabel("rhel7", "web-satprep", date)) == "rhel7-web"
  {
    ContainsAt("web-satprep", "satprep", 4);
    assert FrozenLabel("rhel7", "web-satprep", date) == FrozenLabel("rhel7-web", "satprep", date);
    forall j ensures !OccursAt("rhel7-web", Marker, j) {
      if 0 <= j && j + |Marker| <= 9 {
        assert "rhel7-web"[j] != '-';
      }
    }
    UnfreezeRecoversChannel("rhel7-web", "satprep", date);
  }

  // ---------------------------------------------------------------------------
  // Option normalisation in main

  /** `''.join(l.split()).strip("-").lower()`, then "satprep-" in front unless "satprep" occurs. */
  function NormaliseLabel(l: string): string {
    WithSatprep(LabelCore(l))
  }

  /** `''.join(l.split()).strip("-").lower()`. */
  function LabelCore(l: string): string {
    Lower(Strip(Concat(Words(l)), {'-'}))
  }

  /** "satprep-" put in front of a label that does not name "satprep". */
  function WithSatprep(s: string): string {
    if Contains(s, "satprep") then s else "satprep-" + s
  }

  predicate NoUpper(s: string) {
    forall j :: 0 <= j < |s| ==> !('A' <= s[j] <= 'Z')
  }

  lemma LowerOfNoUpper(s: string)
    requires NoUpper(s)
    ensures Lower(s) == s
  {
  }

  lemma StripNothing(s: string, cs: set<char>)
    requires s == [] || (s[0] !in cs && s[|s| - 1] !in cs)
    ensures Strip(s, cs) == s
  {
  }

  lemma StripKeepsNoSpace(v: string, cs: set<char>)
    requires NoSpace(v)
    ensures NoSpace(Strip(v, cs))
  {
    var r := Strip(v, cs);
    var i, j :| 0 <= i <= j <= |v| && r == v[i..j];
    assert forall k :: 0 <= k < |r| ==> r[k] == v[i + k];
  }

  lemma LowerKeepsShape(t: string)
    requires NoSpace(t)
    ensures NoSpace(Lower(t)) && NoUpper(Lower(t))
    ensures t != [] && t[0] != '-' ==> Lower(t)[0] != '-'
    ensures t != [] && t[|t| - 1] != '-' ==> Lower(t)[|t| - 1] != '-'
  {
    var s := Lower(t);
    forall j | 0 <= j < |s| ensures !IsSpace(s[j]) && !('A' <= s[j] <= 'Z') {
      assert s[j] == LowerChar(t[j]);
    }
  }

  /** The shape of the core of a normalised label, before "satprep-" is put in front. */
  lemma NormalisedCore(l: string)
    ensures var s := LabelCore(l);
            NoSpace(s) && NoUpper(s) && (s == [] || (s[0] != '-' && s[|s| - 1] != '-'))
  {
    ConcatWordsIsVisible(l);
    var t := Strip(Concat(Words(l)), {'-'});
    StripKeepsNoSpace(Concat(Words(l)), {'-'});
    LowerKeepsShape(t);
  }

  /** Putting "satprep-" in front keeps the shape and makes the label name "satprep". */
  lemma PrefixedShape(s: string)
    requires NoSpace(s) && NoUpper(s)
    ensures var r := "satprep-" + s;
            Contains(r, "satprep") && NoSpace(r) && NoUpper(r)
            && (s != [] ==> r[|r| - 1] == s[|s| - 1])
  {
    var r := "satprep-" + s;
    assert r[..7] == "satprep";
    ContainsAt(r, "satprep", 0);
    forall j | 8 <= j < |r| ensures r[j] == s[j - 8] { }
  }

  /** The label check and the prefix, on a core of the right shape. */
  lemma PrefixedLabelShape(s: string)
    requires NoSpace(s) && NoUpper(s) && (s == [] || (s[0] != '-' && s[|s| - 1] != '-'))
    ensures var r := WithSatprep(s);
            Contains(r, "satprep") && NoSpace(r) && NoUpper(r) && r != [] && r[0] != '-'
            && (r[|r| - 1] != '-' || r == "satprep-")
  {
    if Contains(s, "satprep") {
      assert OccursAt(s, "satprep", Find(s, "satprep"));
    } else {
      var r := "satprep-" + s;
      PrefixedShape(s);
      assert r[0] == 's';
      if s == [] {
        assert r == "satprep-";
      }
    }
  }

  /**
   * A normalised label names "satprep", holds no whitespace and no upper-case
   * letter, and neither starts nor ends with '-' unless it is exactly "satprep-".
   */
  lemma NormaliseLabelShape(l: string)
    ensures var r := NormaliseLabel(l);
            Contains(r, "satprep") && NoSpace(r) && NoUpper(r) && r != [] && r[0] != '-'
            && (r[|r| - 1] != '-' || r == "satprep-")
  {
    var s := LabelCore(l);
    NormalisedCore(l);
    PrefixedLabelShape(s);
    assert NormaliseLabel(l) == WithSatprep(s);
  }

  /** A label already of normalised shape is its own core. */
  lemma CoreOfShaped(r: string)
    requires NoSpace(r) && NoUpper(r) && (r == [] || (r[0] != '-' && r[|r| - 1] != '-'))
    ensures LabelCore(r) == r
  {
    ConcatWordsIsVisible(r);
    VisibleOfNoSpace(r);
    StripNothing(r, {'-'});
    LowerOfNoUpper(r);
  }

  /** Normalising a normalised label changes nothing (except for the bare "satprep-"). */
  lemma NormaliseLabelIdempotent(l: string)
    requires NormaliseLabel(l) != "satprep-"
    ensures NormaliseLabel(NormaliseLabel(l)) == NormaliseLabel(l)
  {
    var r := NormaliseLabel(l);
    NormaliseLabelShape(l);
    CoreOfShaped(r);
    assert NormaliseLabel(r) == WithSatprep(r);
  }

  /** The characters `strip("[]'")` removes. */
  const ListChars: set<char> := {'[', ']', '\''}

  /**
   * A repeatable option given exactly once is re-read as a comma-separated list:
   * `str(xs).strip("[]'").split(",")`, with `str(["v"])` written "['v']".
   */
  function SplitOption(xs: seq<string>): (r: seq<string>)
    ensures |xs| != 1 ==> r == xs
    ensures |xs| == 1 ==> |r| >= 1 && forall k :: 0 <= k < |r| ==> ',' !in r[k]
  {
    if |xs| == 1 then Split(Strip("['" + xs[0] + "']", ListChars), ',') else xs
  }

  /** A single option value that does not start or end in a list character is split at its commas, and nothing is lost. */
  lemma SplitOptionRoundTrip(v: string)
    requires v == [] || (v[0] !in ListChars && v[|v| - 1] !in ListChars)
    ensures Join(SplitOption([v]), [',']) == v
  {
    StripQuoted(v);
    SplitJoin(v, ',');
  }

  /** `strip("[]'")` undoes the quoting `str([v])` adds around `v`. */
  lemma StripQuoted(v: string)
    requires v == [] || (v[0] !in ListChars && v[|v| - 1] !in ListChars)
    ensures Strip("['" + v + "']", ListChars) == v
  {
    var s := "['" + v + "']";
    if v == [] {
      StripLeftFrom(s, 4);
    } else {
      assert s[2..] == v + "']";
      StripLeftFrom(s, 2);
      var u := v + "']";
      assert StripLeft(u, ListChars) == u;
      assert u[..|u| - 1] == v + "'";
      assert StripRight(u, ListChars) == StripRight(v + "'", ListChars);
      assert (v + "'")[..|v|] == v;
      assert StripRight(v + "'", ListChars) == v;
    }
  }

  /** Stripping from the left skips a leading run of stripped characters. */
  lemma StripLeftFrom(s: string, n: nat)
    requires n <= |s| && forall j :: 0 <= j < n ==> s[j] in ListChars
    ensures StripLeft(s, ListChars) == StripLeft(s[n..], ListChars)
    decreases n
  {
    if n > 0 {
      assert s[1..][n - 1..] == s[n..];
      StripLeftFrom(s[1..], n - 1);
    }
  }
}

module PatchFreezePlan {
  import opened Common
  import opened Strings
  import opened PatchFreeze

  // ---------------------------------------------------------------------------
  // What the server knows, and what the script asks of it

  /** One system profile, as channel discovery and the remap read it. */
  datatype SystemRecord = SystemRecord(
    id: int,
    base: Option<string>,        // label of the subscribed base channel, None when it has none
    subscribed: seq<string>,     // labels of the subscribed child channels
    subscribable: seq<string>,   // labels of the child channels it could subscribe to
    baseReply: Reply,            // how `setBaseChannel` comes back for it
    childReply: Reply)           // how `setChildChannels` comes back for it

  /** The server's system groups (name to member profile names) and system profiles. */
  datatype Inventory = Inventory(groups: map<string, seq<string>>, systems: map<string, SystemRecord>)

  /** A call that changes the server, in the order the script issues it. */
  datatype Call =
    | CloneChannel(source: string, name: string, cloneLabel: string, summary: string, parentLabel: Option<string>)
    | DeleteChannel(channel: string)
    | SetBaseChannel(systemId: int, channel: string)
    | SetChildChannels(systemId: int, channels: seq<string>)

  // ---------------------------------------------------------------------------
  // Target systems

  /** The named systems the server has a profile for, in the order given. */
  function KnownSystems(names: seq<string>, inv: Inventory): seq<string> {
    if names == [] then []
    else
      var h := names[|names| - 1];
      KnownSystems(names[..|names| - 1], inv) + (if h in inv.systems then [h] else [])
  }

  lemma {:induction false} KnownSystemsExactly(names: seq<string>, inv: Inventory, h: string)
    ensures h in KnownSystems(names, inv) <==> h in names && h in inv.systems
    decreases |names|
  {
    if names != [] {
      var n := |names| - 1;
      KnownSystemsExactly(names[..n], inv, h);
      assert names == names[..n] + [names[n]];
    }
  }

  /** The members of the named groups the server has, group by group. */
  function GroupMembers(groups: seq<string>, inv: Inventory): seq<string> {
    if groups == [] then []
    else
      var g := groups[|groups| - 1];
      GroupMembers(groups[..|groups| - 1], inv) + (if g in inv.groups then inv.groups[g] else [])
  }

  /** A host is collected from the groups exactly when some named group the server has holds it. */
  lemma {:induction false} GroupMembersExactly(groups: seq<string>, inv: Inventory, h: string)
    ensures h in GroupMembers(groups, inv) <==> exists g :: g in groups && g in inv.groups && h in inv.groups[g]
    decreases |groups|
  {
    if groups != [] {
      var n := |groups| - 1;
      GroupMembersExactly(groups[..n], inv, h);
      assert groups == groups[..n] + [groups[n]];
    }
  }

  /** The hosts that the blacklist check lets through, in order. */
  function Unexcluded(hosts: seq<string>, exclude: seq<string>, blacklisted: (string, seq<string>) -> bool): seq<string> {
    if hosts == [] then []
    else
      var h := hosts[|hosts| - 1];
      Unexcluded(hosts[..|hosts| - 1], exclude, blacklisted) + (if blacklisted(h, exclude) then [] else [h])
  }

  lemma {:induction false} UnexcludedExactly(hosts: seq<string>, exclude: seq<string>, blacklisted: (string, seq<string>) -> bool, h: string)
    ensures h in Unexcluded(hosts, exclude, blacklisted) <==> h in hosts && !blacklisted(h, exclude)
    decreases |hosts|
  {
    if hosts != [] {
      var n := |hosts| - 1;
      UnexcludedExactly(hosts[..n], exclude, blacklisted, h);
      assert hosts == hosts[..n] + [hosts[n]];
    }
  }

  /** The validated hosts: known named systems, then group members, minus the blacklisted. */
  function Targets(names: seq<string>, groups: seq<string>, exclude: seq<string>, inv: Inventory,
                   blacklisted: (string, seq<string>) -> bool): seq<string>
  {
    Unexcluded(KnownSystems(names, inv) + GroupMembers(groups, inv), exclude, blacklisted)
  }

  /**
   * A target is a named system the server knows or a member of a named group it
   * knows, and never a host the blacklist check rejects.
   */
  lemma TargetsAreValidated(names: seq<string>, groups: seq<string>, exclude: seq<string>, inv: Inventory,
                            blacklisted: (string, seq<string>) -> bool, h: string)
    ensures h in Targets(names, groups, exclude, inv, blacklisted) <==>
              !blacklisted(h, exclude) &&
              ((h in names && h in inv.systems) || exists g :: g in groups && g in inv.groups && h in inv.groups[g])
  {
    GroupMembersExactly(groups, inv, h);
    KnownSystemsExactly(names, inv, h);
    UnexcludedExactly(KnownSystems(names, inv) + GroupMembers(groups, inv), exclude, blacklisted, h);
  }

  // ---------------------------------------------------------------------------
  // The channel tree

  /** `myChannels`: base labels in the order they were first seen, and each base's children. */
  datatype Topology = Topology(bases: seq<string>, children: map<string, seq<string>>)

  predicate Distinct(xs: seq<string>) {
    forall i, j :: 0 <= i < j < |xs| ==> xs[i] != xs[j]
  }

  /** Each base occurs once and has a child list, and no child list repeats a label. */
  ghost predicate WellFormed(t: Topology) {
    && Distinct(t.bases)
    && (forall b :: b in t.children <==> b in t.bases)
    && (forall b :: b in t.children ==> Distinct(t.children[b]))
  }

  /** Append `x` unless the list already holds it. */
  function AddOne(xs: seq<string>, x: string): (r: seq<string>)
    ensures forall y :: y in r <==> y in xs || y == x
  {
    if x in xs then xs else xs + [x]
  }

  lemma AddOneDistinct(xs: seq<string>, x: string)
    requires Distinct(xs)
    ensures Distinct(AddOne(xs, x))
  {
  }

  /** The subscribed-children loop: each label cleaned and appended unless present. */
  function AddChildren(xs: seq<string>, labels: seq<string>): seq<string> {
    if labels == [] then xs
    else
      var n := |labels| - 1;
      AddOne(AddChildren(xs, labels[..n]), CleanLabel(labels[n]))
  }

  /** A child is appended only when absent, so the list never repeats a label. */
  lemma {:induction false} AddChildrenDistinct(xs: seq<string>, labels: seq<string>)
    requires Distinct(xs)
    ensures Distinct(AddChildren(xs, labels))
    decreases |labels|
  {
    if labels != [] {
      var n := |labels| - 1;
      AddChildrenDistinct(xs, labels[..n]);
      AddOneDistinct(AddChildren(xs, labels[..n]), CleanLabel(labels[n]));
    }
  }

  /** The child list after the loop: the old entries, then the cleaned labels not yet present. */
  lemma {:induction false} AddChildrenExactly(xs: seq<string>, labels: seq<string>, y: string)
    ensures y in AddChildren(xs, labels) <==> y in xs || exists k :: 0 <= k < |labels| && y == CleanLabel(labels[k])
    ensures labels != [] ==> CleanLabel(labels[|labels| - 1]) in AddChildren(xs, labels)
    decreases |labels|
  {
    if labels != [] {
      var n := |labels| - 1;
      AddChildrenExactly(xs, labels[..n], y);
      assert labels == labels[..n] + [labels[n]];
      CleanedSplit(labels[..n], labels[n], y);
    }
  }

  /** A label cleans to `y` in `init + [x]` exactly when one does in `init`, or `x` does. */
  lemma CleanedSplit(init: seq<string>, x: string, y: string)
    ensures (exists k :: 0 <= k < |init + [x]| && y == CleanLabel((init + [x])[k])) <==>
            (exists k :: 0 <= k < |init| && y == CleanLabel(init[k])) || y == CleanLabel(x)
  {
    var ls := init + [x];
    if exists k :: 0 <= k < |ls| && y == CleanLabel(ls[k]) {
      var k :| 0 <= k < |ls| && y == CleanLabel(ls[k]);
      if k < |init| {
        assert ls[k] == init[k];
      } else {
        assert ls[k] == x;
      }
    }
    if exists k :: 0 <= k < |init| && y == CleanLabel(init[k]) {
      var k :| 0 <= k < |init| && y == CleanLabel(init[k]);
      assert ls[k] == init[k];
    }
    if y == CleanLabel(x) {
      assert ls[|init|] == x;
    }
  }

  /** The value `cleanChild` holds after the subscribed-children loop. */
  function LastClean(labels: seq<string>, last: Option<string>): Option<string> {
    if labels == [] then last else Some(CleanLabel(labels[|labels| - 1]))
  }

  /** The tree, and the `cleanChild` variable that outlives each host's scan. */
  datatype Scanned = Scanned(topo: Topology, last: Option<string>)

  /**
   * Scanning one host. A host without a profile or without a base channel leaves
   * everything as it was (the scan's error is caught). With `--all-subchannels` and
   * a non-empty subscribable list, the loop appends the stale `cleanChild` once; if
   * no `cleanChild` was ever bound, that loop's error is caught after the base and
   * its children were added.
   */
  function ScanHost(s: Scanned, host: string, inv: Inventory, allSubchannels: bool): Scanned {
    if host !in inv.systems || inv.systems[host].base.None? then s
    else
      var rec := inv.systems[host];
      var b := CleanLabel(rec.base.value);
      var t := s.topo;
      var bases := if b in t.children then t.bases else t.bases + [b];
      var start := if b in t.children then t.children[b] else [];
      var kids := AddChildren(start, rec.subscribed);
      var last := LastClean(rec.subscribed, s.last);
      var kids2 := if allSubchannels && rec.subscribable != [] && last.Some? then AddOne(kids, last.value) else kids;
      Scanned(Topology(bases, t.children[b := kids2]), last)
  }

  function ScanHosts(s: Scanned, hosts: seq<string>, inv: Inventory, allSubchannels: bool): Scanned {
    if hosts == [] then s
    else ScanHost(ScanHosts(s, hosts[..|hosts| - 1], inv, allSubchannels), hosts[|hosts| - 1], inv, allSubchannels)
  }

  lemma ScanHostWellFormed(s: Scanned, host: string, inv: Inventory, allSubchannels: bool)
    requires WellFormed(s.topo)
    ensures WellFormed(ScanHost(s, host, inv, allSubchannels).topo)
  {
    if host in inv.systems && inv.systems[host].base.Some? {
      var rec := inv.systems[host];
      var b := CleanLabel(rec.base.value);
      var start := if b in s.topo.children then s.topo.children[b] else [];
      AddChildrenDistinct(start, rec.subscribed);
      var last := LastClean(rec.subscribed, s.last);
      if last.Some? {
        AddOneDistinct(AddChildren(start, rec.subscribed), last.value);
      }
    }
  }

  /** Scanning keeps the tree well formed: no base twice, no child twice under one base. */
  lemma {:induction false} ScanHostsWellFormed(s: Scanned, hosts: seq<string>, inv: Inventory, allSubchannels: bool)
    requires WellFormed(s.topo)
    ensures WellFormed(ScanHosts(s, hosts, inv, allSubchannels).topo)
    decreases |hosts|
  {
    if hosts != [] {
      ScanHostsWellFormed(s, hosts[..|hosts| - 1], inv, allSubchannels);
      ScanHostWellFormed(ScanHosts(s, hosts[..|hosts| - 1], inv, allSubchannels), hosts[|hosts| - 1], inv, allSubchannels);
    }
  }
  /** The channel tree `getChannels` builds for the targets, starting from an empty one. */
  function ChannelTree(hosts: seq<string>, inv: Inventory, allSubchannels: bool): (t: Topology)
    ensures WellFormed(t)
  {
    var start := Scanned(Topology([], map[]), None);
    ScanHostsWellFormed(start, hosts, inv, allSubchannels);
    ScanHosts(start, hosts, inv, allSubchannels).topo
  }


  /**
   * For a host with subscribed children, the `--all-subchannels` pass re-tests the
   * host's own last child, which is already listed: it adds nothing.
   */
  lemma AllSubchannelsAddsNothing(s: Scanned, host: string, inv: Inventory)
    requires host in inv.systems && inv.systems[host].base.Some? && inv.systems[host].subscribed != []
    ensures ScanHost(s, host, inv, true) == ScanHost(s, host, inv, false)
  {
    var rec := inv.systems[host];
    var b := CleanLabel(rec.base.value);
    AddChildrenExactly(if b in s.topo.children then s.topo.children[b] else [], rec.subscribed, "");
  }

  /**
   * For a host without subscribed children, the pass appends the last child of an
   * earlier host under this host's base, whether or not this host could subscribe
   * to it.
   */
  lemma AllSubchannelsStaleChild(s: Scanned, host: string, inv: Inventory)
    requires host in inv.systems && inv.systems[host].base.Some?
    requires inv.systems[host].subscribed == [] && inv.systems[host].subscribable != [] && s.last.Some?
    ensures var r := ScanHost(s, host, inv, true);
            r.last == s.last && s.last.value in r.topo.children[CleanLabel(inv.systems[host].base.value)]
  {
  }

  // ---------------------------------------------------------------------------
  // Freeze: the clone plan

  function BaseClone(b: string, tag: string, date: string): Call {
    CloneChannel(b, b + " clone from " + date, FrozenLabel(b, tag, date), CloneSummary, None)
  }

  function ChildClone(b: string, c: string, tag: string, date: string): Call {
    CloneChannel(c, c + " clone from " + date, FrozenLabel(c, tag, date), CloneSummary, Some(FrozenLabel(b, tag, date)))
  }

  function ChildClones(b: string, cs: seq<string>, tag: string, date: string): seq<Call> {
    seq(|cs|, k requires 0 <= k < |cs| => ChildClone(b, cs[k], tag, date))
  }

  /** The clones `cloneChannels` attempts: base by base, the base and then its children. */
  function ClonePlan(bases: seq<string>, children: map<string, seq<string>>, tag: string, date: string): (r: seq<Call>)
    requires forall b :: b in bases ==> b in children
    ensures forall c :: c in r ==> c.CloneChannel?
  {
    if bases == [] then []
    else
      var b := bases[|bases| - 1];
      ClonePlan(bases[..|bases| - 1], children, tag, date) + [BaseClone(b, tag, date)] + ChildClones(b, children[b], tag, date)
  }

  /**
   * One clone call as `cloneChannels` builds it: named by the frozen-label rule,
   * with the fixed summary, and for a child, the frozen label of a base whose
   * child list holds it as parent.
   */
  ghost predicate WellNamed(c: Call, bases: seq<string>, children: map<string, seq<string>>, tag: string, date: string) {
    && c.CloneChannel?
    && c.cloneLabel == FrozenLabel(c.source, tag, date)
    && c.summary == CloneSummary
    && (c.parentLabel.Some? ==>
          exists b :: b in bases && b in children && c.source in children[b] && c.parentLabel.value == FrozenLabel(b, tag, date))
  }

  /** Every clone of the plan is well named. */
  lemma {:induction false} ClonePlanLabels(bases: seq<string>, children: map<string, seq<string>>, tag: string, date: string)
    requires forall b :: b in bases ==> b in children
    ensures forall c :: c in ClonePlan(bases, children, tag, date) ==> WellNamed(c, bases, children, tag, date)
    decreases |bases|
  {
    if bases != [] {
      var n := |bases| - 1;
      var b := bases[n];
      ClonePlanLabels(bases[..n], children, tag, date);
      var q := ClonePlan(bases[..n], children, tag, date);
      forall c | c in ClonePlan(bases, children, tag, date) ensures WellNamed(c, bases, children, tag, date) {
        if c in q {
          assert WellNamed(c, bases[..n], children, tag, date);
          if c.parentLabel.Some? {
            var b' :| b' in bases[..n] && b' in children && c.source in children[b'] && c.parentLabel.value == FrozenLabel(b', tag, date);
            assert b' in bases;
          }
        } else if c != BaseClone(b, tag, date) {
          assert c in ChildClones(b, children[b], tag, date);
          assert b in bases;
        }
      }
    }
  }

  /** Each child clone comes after a base clone whose label is the child's parent. */
  ghost predicate ParentsFirst(p: seq<Call>) {
    forall j :: 0 <= j < |p| && p[j].CloneChannel? && p[j].parentLabel.Some? ==>
      exists i :: 0 <= i < j && p[i].CloneChannel? && p[i].parentLabel.None? && p[i].cloneLabel == p[j].parentLabel.value
  }

  /** The parent of every child clone is attempted before the child. */
  lemma {:induction false} ClonePlanParentFirst(bases: seq<string>, children: map<string, seq<string>>, tag: string, date: string)
    requires forall b :: b in bases ==> b in children
    ensures ParentsFirst(ClonePlan(bases, children, tag, date))
    decreases |bases|
  {
    if bases != [] {
      var n := |bases| - 1;
      var b := bases[n];
      ClonePlanParentFirst(bases[..n], children, tag, date);
      var q := ClonePlan(bases[..n], children, tag, date);
      var p := ClonePlan(bases, children, tag, date);
      assert ParentsFirst(q);
      forall j | 0 <= j < |p| && p[j].CloneChannel? && p[j].parentLabel.Some?
        ensures exists i :: 0 <= i < j && p[i].CloneChannel? && p[i].parentLabel.None? && p[i].cloneLabel == p[j].parentLabel.value
      {
        if j < |q| {
          assert p[j] == q[j];
          var i :| 0 <= i < j && q[i].CloneChannel? && q[i].parentLabel.None? && q[i].cloneLabel == q[j].parentLabel.value;
          assert p[i] == q[i];
        } else {
          assert p[|q|] == BaseClone(b, tag, date);
          assert p[j] == ChildClone(b, children[b][j - |q| - 1], tag, date);
        }
      }
    }
  }

  /** Every base of the tree and every child under it is cloned. */
  lemma {:induction false} ClonePlanComplete(bases: seq<string>, children: map<string, seq<string>>, tag: string, date: string)
    requires forall b :: b in bases ==> b in children
    ensures forall b :: b in bases ==> BaseClone(b, tag, date) in ClonePlan(bases, children, tag, date)
    ensures forall b, c :: b in bases && c in children[b] ==> ChildClone(b, c, tag, date) in ClonePlan(bases, children, tag, date)
    decreases |bases|
  {
    if bases != [] {
      var n := |bases| - 1;
      ClonePlanComplete(bases[..n], children, tag, date);
      var q := ClonePlan(bases[..n], children, tag, date);
      var p := ClonePlan(bases, children, tag, date);
      assert forall x :: x in q ==> x in p;
      forall b, c | b in bases && c in children[b] ensures ChildClone(b, c, tag, date) in p {
        if b != bases[n] {
          assert b in bases[..n];
        } else {
          var k :| 0 <= k < |children[b]| && children[b][k] == c;
          assert p[|q| + 1 + k] == ChildClone(b, c, tag, date);
        }
      }
      assert p[|q|] == BaseClone(bases[n], tag, date);
      forall b | b in bases ensures BaseClone(b, tag, date) in p {
        if b != bases[n] {
          assert b in bases[..n];
        }
      }
    }
  }

  // ---------------------------------------------------------------------------
  // Unfreeze: the delete plan

  function ChildDeletes(cs: seq<string>, tag: string, date: string): seq<Call> {
    seq(|cs|, k requires 0 <= k < |cs| => DeleteChannel(FrozenLabel(cs[k], tag, date)))
  }

  /** The deletes of the children's clones, base by base. */
  function AllChildDeletes(bases: seq<string>, children: map<string, seq<string>>, tag: string, date: string): (r: seq<Call>)
    requires forall b :: b in bases ==> b in children
    ensures forall c :: c in r ==> c.DeleteChannel?
  {
    if bases == [] then []
    else
      var b := bases[|bases| - 1];
      AllChildDeletes(bases[..|bases| - 1], children, tag, date) + ChildDeletes(children[b], tag, date)
  }

  /**
   * The deletes `cloneChannels` issues on unfreeze: every child clone, then one
   * base clone only, that of the base the loop variable last held.
   */
  function DeletePlan(bases: seq<string>, children: map<string, seq<string>>, tag: string, date: string): seq<Call>
    requires bases != [] && forall b :: b in bases ==> b in children
  {
    AllChildDeletes(bases, children, tag, date) + [DeleteChannel(FrozenLabel(bases[|bases| - 1], tag, date))]
  }

  lemma FrozenLabelInjective(x: string, y: string, tag: string, date: string)
    requires FrozenLabel(x, tag, date) == FrozenLabel(y, tag, date)
    ensures x == y
  {
    var sfx := "-" + tag + "-" + date;
    assert FrozenLabel(x, tag, date) == x + sfx && FrozenLabel(y, tag, date) == y + sfx;
    assert x == (x + sfx)[..|x|];
    assert y == (y + sfx)[..|y|];
  }

  lemma {:induction false} AllChildDeletesExactly(bases: seq<string>, children: map<string, seq<string>>, tag: string, date: string, x: string)
    requires forall b :: b in bases ==> b in children
    ensures DeleteChannel(FrozenLabel(x, tag, date)) in AllChildDeletes(bases, children, tag, date) <==>
              exists b :: b in bases && x in children[b]
    decreases |bases|
  {
    if bases != [] {
      var n := |bases| - 1;
      var b := bases[n];
      AllChildDeletesExactly(bases[..n], children, tag, date, x);
      var d := DeleteChannel(FrozenLabel(x, tag, date));
      var cd := ChildDeletes(children[b], tag, date);
      if d in cd {
        var k :| 0 <= k < |cd| && cd[k] == d;
        FrozenLabelInjective(x, children[b][k], tag, date);
      }
      if x in children[b] {
        var k :| 0 <= k < |children[b]| && children[b][k] == x;
        assert cd[k] == d;
      }
      if exists b' :: b' in bases && x in children[b'] {
        var b' :| b' in bases && x in children[b'];
        if b' != b {
          assert b' in bases[..n];
        }
      }
    }
  }

  /**
   * Unfreeze deletes the clone of a channel exactly when it is a child in the tree
   * or the last base: the clones of the other bases are left behind.
   */
  lemma DeletePlanDeletes(bases: seq<string>, children: map<string, seq<string>>, tag: string, date: string, x: string)
    requires bases != [] && forall b :: b in bases ==> b in children
    ensures forall c :: c in DeletePlan(bases, children, tag, date) ==> c.DeleteChannel?
    ensures DeleteChannel(FrozenLabel(x, tag, date)) in DeletePlan(bases, children, tag, date) <==>
              x == bases[|bases| - 1] || exists b :: b in bases && x in children[b]
  {
    AllChildDeletesExactly(bases, children, tag, date, x);
    if DeleteChannel(FrozenLabel(x, tag, date)) == DeleteChannel(FrozenLabel(bases[|bases| - 1], tag, date)) {
      FrozenLabelInjective(x, bases[|bases| - 1], tag, date);
    }
  }

  // ---------------------------------------------------------------------------
  // The remap plan

  /** The channel a system is moved to: the clone on freeze, the marker cut away on unfreeze. */
  function NewLabel(l: string, unfreeze: bool, tag: string, date: string): string {
    if unfreeze then UnfreezeLabel(l) else FrozenLabel(l, tag, date)
  }

  function NewLabels(ls: seq<string>, unfreeze: bool, tag: string, date: string): seq<string> {
    seq(|ls|, k requires 0 <= k < |ls| => NewLabel(ls[k], unfreeze, tag, date))
  }

  /**
   * Remapping to the clones and back restores a system's channels, provided its
   * channels carry no marker and the freeze label starts with "satprep".
   */
  lemma RemapRoundTrip(ls: seq<string>, tag: string, date: string, tag': string, date': string)
    requires forall k :: 0 <= k < |ls| ==> !Contains(ls[k], Marker)
    requires |tag| >= 7 && tag[..7] == "satprep"
    ensures NewLabels(NewLabels(ls, false, tag, date), true, tag', date') == ls
  {
    forall k | 0 <= k < |ls| ensures NewLabels(NewLabels(ls, false, tag, date), true, tag', date')[k] == ls[k] {
      UnfreezeRecoversChannel(ls[k], tag, date);
    }
  }

  /** The two calls the remap issues for one system, base channel first. */
  function SystemCalls(rec: SystemRecord, unfreeze: bool, tag: string, date: string): seq<Call>
    requires rec.base.Some?
  {
    [SetBaseChannel(rec.id, NewLabel(rec.base.value, unfreeze, tag, date)),
     SetChildChannels(rec.id, NewLabels(rec.subscribed, unfreeze, tag, date))]
  }

  datatype RemapError = BaseNotChanged(system: string) | ChildrenNotSet(system: string)

  /** Any failure of `setBaseChannel` is logged; of `setChildChannels`, all but an RPC fault. */
  function SystemErrors(host: string, rec: SystemRecord): seq<RemapError> {
    (if rec.baseReply == Accepted then [] else [BaseNotChanged(host)])
    + (if rec.childReply == Failure then [ChildrenNotSet(host)] else [])
  }

  /** A host whose profile or base channel is missing makes the remap raise outside any handler. */
  predicate Remappable(host: string, inv: Inventory) {
    host in inv.systems && inv.systems[host].base.Some?
  }

  datatype Remap = Remap(crashed: bool, calls: seq<Call>, errors: seq<RemapError>)

  /** What `remapSystems` does for the hosts in order, stopping at the first that raises. */
  function RemapPlan(systems: seq<string>, inv: Inventory, unfreeze: bool, tag: string, date: string, dryrun: bool): (r: Remap)
    ensures dryrun ==> r.calls == [] && r.errors == []
    ensures forall c :: c in r.calls ==> c.SetBaseChannel? || c.SetChildChannels?
    ensures r.crashed <==> exists h :: h in systems && !Remappable(h, inv)
  {
    if systems == [] then Remap(false, [], [])
    else
      var h := systems[|systems| - 1];
      var p := RemapPlan(systems[..|systems| - 1], inv, unfreeze, tag, date, dryrun);
      assert systems == systems[..|systems| - 1] + [h];
      if p.crashed then p
      else if !Remappable(h, inv) then Remap(true, p.calls, p.errors)
      else if dryrun then p
      else Remap(false, p.calls + SystemCalls(inv.systems[h], unfreeze, tag, date), p.errors + SystemErrors(h, inv.systems[h]))
  }

  /** `remapSystems` as a whole: nothing with `--no-remap`, the remap plan otherwise. */
  function RemapOutcome(systems: seq<string>, inv: Inventory, unfreeze: bool, tag: string, date: string,
                        dryrun: bool, noRemap: bool): Remap
  {
    if noRemap then Remap(false, [], []) else RemapPlan(systems, inv, unfreeze, tag, date, dryrun)
  }

  /** Once the remap has raised, later hosts change nothing. */
  lemma {:induction false} RemapCrashStays(systems: seq<string>, i: nat, inv: Inventory, unfreeze: bool, tag: string, date: string, dryrun: bool)
    requires i <= |systems| && RemapPlan(systems[..i], inv, unfreeze, tag, date, dryrun).crashed
    ensures RemapPlan(systems, inv, unfreeze, tag, date, dryrun) == RemapPlan(systems[..i], inv, unfreeze, tag, date, dryrun)
    decreases |systems| - i
  {
    if i < |systems| {
      assert systems[..i + 1][..i] == systems[..i];
      RemapCrashStays(systems, i + 1, inv, unfreeze, tag, date, dryrun);
    } else {
      assert systems[..i] == systems;
    }
  }

  /**
   * A remap that ran to the end issued both calls for every host, and nothing else.
   */
  lemma {:induction false} RemapPlanCovers(systems: seq<string>, inv: Inventory, unfreeze: bool, tag: string, date: string)
    requires !RemapPlan(systems, inv, unfreeze, tag, date, false).crashed
    ensures var r := RemapPlan(systems, inv, unfreeze, tag, date, false);
            && (forall h, c :: h in systems && c in SystemCalls(inv.systems[h], unfreeze, tag, date) ==> c in r.calls)
            && (forall c :: c in r.calls ==> exists h :: h in systems && Remappable(h, inv) && c in SystemCalls(inv.systems[h], unfreeze, tag, date))
    decreases |systems|
  {
    if systems != [] {
      var n := |systems| - 1;
      var h := systems[n];
      RemapPlanCovers(systems[..n], inv, unfreeze, tag, date);
      var p := RemapPlan(systems[..n], inv, unfreeze, tag, date, false);
      var r := RemapPlan(systems, inv, unfreeze, tag, date, false);
      assert r.calls == p.calls + SystemCalls(inv.systems[h], unfreeze, tag, date);
      forall h', c | h' in systems && c in SystemCalls(inv.systems[h'], unfreeze, tag, date) ensures c in r.calls {
        if h' != h {
          assert h' in systems[..n];
        }
      }
      forall c | c in r.calls
        ensures exists h' :: h' in systems && Remappable(h', inv) && c in SystemCalls(inv.systems[h'], unfreeze, tag, date)
      {
        if c in p.calls {
          var h' :| h' in systems[..n] && Remappable(h', inv) && c in SystemCalls(inv.systems[h'], unfreeze, tag, date);
          assert h' in systems;
        }
      }
    }
  }

  /**
   * A remap that ran to the end logged an error for a host's base channel exactly
   * when `setBaseChannel` failed, and for its child channels exactly when
   * `setChildChannels` failed with anything but an RPC fault.
   */
  lemma {:induction false} RemapPlanErrors(systems: seq<string>, inv: Inventory, unfreeze: bool, tag: string, date: string, h: string)
    requires !RemapPlan(systems, inv, unfreeze, tag, date, false).crashed
    ensures var r := RemapPlan(systems, inv, unfreeze, tag, date, false);
            && (BaseNotChanged(h) in r.errors <==> h in systems && inv.systems[h].baseReply != Accepted)
            && (ChildrenNotSet(h) in r.errors <==> h in systems && inv.systems[h].childReply == Failure)
    decreases |systems|
  {
    if systems != [] {
      var n := |systems| - 1;
      RemapPlanErrors(systems[..n], inv, unfreeze, tag, date, h);
      assert systems == systems[..n] + [systems[n]];
    }
  }

  // ---------------------------------------------------------------------------
  // The steps of getChannels that only read

  /** The loop over `--system` values: those the server has a profile for, in order. */
  method CollectKnown(names: seq<string>, inv: Inventory) returns (hosts: seq<string>)
    ensures hosts == KnownSystems(names, inv)
  {
    hosts := [];
    var i := 0;
    while i < |names|
      invariant 0 <= i <= |names|
      invariant hosts == KnownSystems(names[..i], inv)
    {
      if names[i] in inv.systems {
        hosts := hosts + [names[i]];
      }
      assert names[..i + 1][..i] == names[..i];
      i := i + 1;
    }
    assert names[..i] == names;
  }

  /** The loop over `--group` values: the members of each group the server has. */
  method CollectMembers(groups: seq<string>, inv: Inventory) returns (hosts: seq<string>)
    ensures hosts == GroupMembers(groups, inv)
  {
    hosts := [];
    var g := 0;
    while g < |groups|
      invariant 0 <= g <= |groups|
      invariant hosts == GroupMembers(groups[..g], inv)
    {
      var group := groups[g];
      assert groups[..g + 1][..g] == groups[..g];
      if group in inv.groups {
        var members := inv.groups[group];
        var m := 0;
        while m < |members|
          invariant 0 <= m <= |members|
          invariant hosts == GroupMembers(groups[..g], inv) + members[..m]
        {
          hosts := hosts + [members[m]];
          assert members[..m + 1] == members[..m] + [members[m]];
          m := m + 1;
        }
        assert members[..m] == members;
      }
      g := g + 1;
    }
    assert groups[..g] == groups;
  }

  /** The subscribed-children loop of the scan, on the base's child list. */
  method AddSubscribed(kids: seq<string>, labels: seq<string>, last: Option<string>) returns (kids': seq<string>, last': Option<string>)
    ensures kids' == AddChildren(kids, labels)
    ensures last' == LastClean(labels, last)
  {
    kids' := kids;
    last' := last;
    var j := 0;
    while j < |labels|
      invariant 0 <= j <= |labels|
      invariant kids' == AddChildren(kids, labels[..j])
      invariant last' == LastClean(labels[..j], last)
    {
      var cleanChild := CleanLabel(labels[j]);
      last' := Some(cleanChild);
      if cleanChild !in kids' {
        kids' := kids' + [cleanChild];
      }
      assert labels[..j + 1][..j] == labels[..j];
      j := j + 1;
    }
    assert labels[..j] == labels;
  }

  /**
   * The `--all-subchannels` loop of the scan: once per subscribable channel it
   * re-tests the stale `cleanChild`; when that was never bound the loop raises
   * and the scan's handler keeps what was added so far.
   */
  method AddStale(kids: seq<string>, subscribable: seq<string>, last: Option<string>) returns (kids': seq<string>)
    ensures kids' == if subscribable != [] && last.Some? then AddOne(kids, last.value) else kids
  {
    kids' := kids;
    var k := 0;
    while k < |subscribable|
      invariant 0 <= k <= |subscribable|
      invariant k > 0 ==> last.Some?
      invariant kids' == if k == 0 then kids else AddOne(kids, last.value)
    {
      if last.None? {
        break;
      }
      if last.value !in kids' {
        kids' := kids' + [last.value];
      }
      k := k + 1;
    }
  }

  /** The inner loop of `cloneChannels` on unfreeze: one delete per child clone. */
  method DeleteChildren(kids: seq<string>, tag: string, date: string, dryrun: bool) returns (calls: seq<Call>)
    ensures calls == if dryrun then [] else ChildDeletes(kids, tag, date)
  {
    calls := [];
    var j := 0;
    while j < |kids|
      invariant 0 <= j <= |kids|
      invariant calls == if dryrun then [] else ChildDeletes(kids[..j], tag, date)
    {
      if !dryrun {
        calls := calls + [DeleteChannel(FrozenLabel(kids[j], tag, date))];
      }
      j := j + 1;
    }
    assert kids[..j] == kids;
  }

  /** The child loop of `cloneChannels` for one base. */
  method CloneChildren(channel: string, kids: seq<string>, tag: string, date: string, dryrun: bool) returns (calls: seq<Call>)
    ensures calls == if dryrun then [] else ChildClones(channel, kids, tag, date)
  {
    calls := [];
    var j := 0;
    while j < |kids|
      invariant 0 <= j <= |kids|
      invariant calls == if dryrun then [] else ChildClones(channel, kids[..j], tag, date)
    {
      if !dryrun {
        calls := calls + [ChildClone(channel, kids[j], tag, date)];
      }
      j := j + 1;
    }
    assert kids[..j] == kids;
  }

  /** Appending to a concatenation appends to its second part. */
  lemma AppendAssoc(a: seq<string>, b: seq<string>, x: string)
    ensures (a + b) + [x] == a + (b + [x])
  {
  }

  /** One more host adds itself to the targets unless it is blacklisted. */
  lemma UnexcludedStep(hosts: seq<string>, exclude: seq<string>, blacklisted: (string, seq<string>) -> bool, k: int)
    requires 0 <= k < |hosts|
    ensures Unexcluded(hosts[..k + 1], exclude, blacklisted)
         == Unexcluded(hosts[..k], exclude, blacklisted) + if blacklisted(hosts[k], exclude) then [] else [hosts[k]]
  {
    assert hosts[..k + 1][..k] == hosts[..k];
  }

  /** One more base adds its children's deletes to the unfreeze plan. */
  lemma AllChildDeletesStep(bases: seq<string>, children: map<string, seq<string>>, tag: string, date: string, i: int)
    requires 0 <= i < |bases| && forall b :: b in bases ==> b in children
    ensures AllChildDeletes(bases[..i + 1], children, tag, date)
         == AllChildDeletes(bases[..i], children, tag, date) + ChildDeletes(children[bases[i]], tag, date)
  {
    assert bases[..i + 1][..i] == bases[..i];
  }

  /** One more base adds its clone and its children's clones to the plan. */
  lemma ClonePlanStep(bases: seq<string>, children: map<string, seq<string>>, tag: string, date: string, i: int)
    requires 0 <= i < |bases| && forall b :: b in bases ==> b in children
    ensures ClonePlan(bases[..i + 1], children, tag, date)
         == ClonePlan(bases[..i], children, tag, date) + [BaseClone(bases[i], tag, date)]
            + ChildClones(bases[i], children[bases[i]], tag, date)
  {
    assert bases[..i + 1][..i] == bases[..i];
  }

  /** The freeze loop of `cloneChannels` over the channel tree: each base clone, then its child clones. */
  method CloneAll(myChannels: seq<string>, children: map<string, seq<string>>, tag: string, date: string, dryrun: bool)
    returns (calls: seq<Call>)
    requires forall b :: b in myChannels ==> b in children
    ensures calls == if dryrun then [] else ClonePlan(myChannels, children, tag, date)
  {
    calls := [];
    var i := 0;
    while i < |myChannels|
      invariant 0 <= i <= |myChannels|
      invariant calls == if dryrun then [] else ClonePlan(myChannels[..i], children, tag, date)
    {
      var channel := myChannels[i];
      ClonePlanStep(myChannels, children, tag, date, i);
      if !dryrun {
        calls := calls + [BaseClone(channel, tag, date)];
      }
      var childCalls := CloneChildren(channel, children[channel], tag, date, dryrun);
      calls := calls + childCalls;
      i := i + 1;
    }
    assert myChannels[..i] == myChannels;
  }

  /** The body of the remap loop for one host whose profile and base channel exist. */
  method RemapOne(host: string, rec: SystemRecord, unfreeze: bool, tag: string, date: string, dryrun: bool)
    returns (calls: seq<Call>, errors: seq<RemapError>)
    requires rec.base.Some?
    ensures calls == if dryrun then [] else SystemCalls(rec, unfreeze, tag, date)
    ensures errors == if dryrun then [] else SystemErrors(host, rec)
  {
    calls, errors := [], [];
    var newBase := NewLabel(rec.base.value, unfreeze, tag, date);
    if !dryrun {
      calls := [SetBaseChannel(rec.id, newBase)];
      if rec.baseReply != Accepted {
        errors := [BaseNotChanged(host)];
      }
    }
    var tmpChannels: seq<string> := [];
    var j := 0;
    while j < |rec.subscribed|
      invariant 0 <= j <= |rec.subscribed|
      invariant tmpChannels == NewLabels(rec.subscribed[..j], unfreeze, tag, date)
    {
      tmpChannels := tmpChannels + [NewLabel(rec.subscribed[j], unfreeze, tag, date)];
      j := j + 1;
    }
    assert rec.subscribed[..j] == rec.subscribed;
    if !dryrun {
      calls := calls + [SetChildChannels(rec.id, tmpChannels)];
      if rec.childReply == Failure {
        errors := errors + [ChildrenNotSet(host)];
      }
    }
  }

  /** Writing a key twice keeps only the second value. */
  lemma MapOverwrite(m: map<string, seq<string>>, k: string, a: seq<string>, b: seq<string>)
    ensures m[k := a][k := b] == m[k := b]
  {
  }

  // ---------------------------------------------------------------------------
  // The script's state and its steps

  /** `mySystems` and `myChannels`, the module-level state the steps share. */
  class FreezeState {
    var systems: seq<string>
    var bases: seq<string>
    var children: map<string, seq<string>>

    ghost predicate Valid()
      reads this
    {
      WellFormed(Topology(bases, children))
    }

    constructor ()
      ensures systems == [] && bases == [] && children == map[]
      ensures Valid()
    {
      systems := [];
      bases := [];
      children := map[];
    }

    /** The first half of `getChannels`: validate the named systems, add group members, drop the blacklisted. */
    method ResolveTargets(names: seq<string>, groups: seq<string>, exclude: seq<string>, inv: Inventory,
                          blacklisted: (string, seq<string>) -> bool)
      modifies this`systems
      ensures systems == old(systems) + Targets(names, groups, exclude, inv, blacklisted)
    {
      var known := CollectKnown(names, inv);
      var members := CollectMembers(groups, inv);
      var tempHosts := known + members;
      var k := 0;
      while k < |tempHosts|
        invariant 0 <= k <= |tempHosts|
        invariant systems == old(systems) + Unexcluded(tempHosts[..k], exclude, blacklisted)
      {
        UnexcludedStep(tempHosts, exclude, blacklisted, k);
        if !blacklisted(tempHosts[k], exclude) {
          AppendAssoc(old(systems), Unexcluded(tempHosts[..k], exclude, blacklisted), tempHosts[k]);
          systems := systems + [tempHosts[k]];
        }
        k := k + 1;
      }
      assert tempHosts[..k] == tempHosts;
    }

    /** The second half of `getChannels`: scan each validated host's channels into the tree. */
    method ScanChannels(inv: Inventory, allSubchannels: bool)
      requires Valid()
      modifies this`bases, this`children
      ensures Valid()
      ensures Topology(bases, children) == ScanHosts(Scanned(old(Topology(bases, children)), None), systems, inv, allSubchannels).topo
    {
      ghost var start := Scanned(Topology(bases, children), None);
      var last: Option<string> := None;
      var i := 0;
      while i < |systems|
        invariant 0 <= i <= |systems|
        invariant Scanned(Topology(bases, children), last) == ScanHosts(start, systems[..i], inv, allSubchannels)
      {
        assert systems[..i + 1][..i] == systems[..i];
        last := ScanOne(systems[i], inv, allSubchannels, last);
        i := i + 1;
      }
      assert systems[..i] == systems;
      ScanHostsWellFormed(start, systems, inv, allSubchannels);
    }

    /** One pass of the scan loop; `last` is the `cleanChild` variable the loop shares across hosts. */
    method ScanOne(host: string, inv: Inventory, allSubchannels: bool, last: Option<string>) returns (last': Option<string>)
      modifies this`bases, this`children
      ensures Scanned(Topology(bases, children), last') == ScanHost(Scanned(old(Topology(bases, children)), last), host, inv, allSubchannels)
    {
      last' := last;
      if host !in inv.systems || inv.systems[host].base.None? {
        return;
      }
      ghost var t := Topology(bases, children);
      var rec := inv.systems[host];
      var cleanBase := CleanLabel(rec.base.value);
      if cleanBase !in children {
        bases := bases + [cleanBase];
        children := children[cleanBase := []];
      }
      var kids;
      kids, last' := AddSubscribed(children[cleanBase], rec.subscribed, last);
      if allSubchannels {
        kids := AddStale(kids, rec.subscribable, last');
      }
      if cleanBase !in t.children {
        MapOverwrite(t.children, cleanBase, [], kids);
      }
      children := children[cleanBase := kids];
    }

    /** `cloneChannels` on freeze. */
    method CloneChannels(tag: string, date: string, dryrun: bool) returns (calls: seq<Call>)
      requires Valid()
      ensures calls == if dryrun then [] else ClonePlan(bases, children, tag, date)
    {
      calls := CloneAll(bases, children, tag, date, dryrun);
    }

    /** `cloneChannels` on unfreeze; it raises when the tree is empty, even in a dry run. */
    method DeleteClones(tag: string, date: string, dryrun: bool) returns (crashed: bool, calls: seq<Call>)
      requires Valid()
      ensures crashed <==> bases == []
      ensures crashed || dryrun ==> calls == []
      ensures !crashed && !dryrun ==> calls == DeletePlan(bases, children, tag, date)
      ensures forall c :: c in calls ==> c.DeleteChannel?
    {
      assert forall b :: b in bases ==> b in children;
      calls := [];
      var channel: Option<string> := None;
      var i := 0;
      while i < |bases|
        invariant 0 <= i <= |bases|
        invariant channel == if i == 0 then None else Some(bases[i - 1])
        invariant calls == if dryrun then [] else AllChildDeletes(bases[..i], children, tag, date)
      {
        channel := Some(bases[i]);
        AllChildDeletesStep(bases, children, tag, date, i);
        var childCalls := DeleteChildren(children[bases[i]], tag, date, dryrun);
        calls := calls + childCalls;
        i := i + 1;
      }
      assert bases[..i] == bases;
      if channel.None? {
        // the base delete names the loop variable, which the empty loop never bound
        crashed := true;
        return;
      }
      crashed := false;
      if !dryrun {
        calls := calls + [DeleteChannel(FrozenLabel(channel.value, tag, date))];
      }
    }

    /** `remapSystems`. */
    method RemapSystems(inv: Inventory, unfreeze: bool, tag: string, date: string, dryrun: bool, noRemap: bool)
      returns (r: Remap)
      ensures r == RemapOutcome(systems, inv, unfreeze, tag, date, dryrun, noRemap)
    {
      r := Remap(false, [], []);
      if noRemap {
        return;
      }
      var i := 0;
      while i < |systems| && !r.crashed
        invariant 0 <= i <= |systems|
        invariant r == RemapPlan(systems[..i], inv, unfreeze, tag, date, dryrun)
      {
        var host := systems[i];
        assert systems[..i + 1][..i] == systems[..i];
        if !Remappable(host, inv) {
          r := Remap(true, r.calls, r.errors);
        } else {
          var calls, errors := RemapOne(host, inv.systems[host], unfreeze, tag, date, dryrun);
          r := Remap(false, r.calls + calls, r.errors + errors);
        }
        i := i + 1;
      }
      if i < |systems| {
        RemapCrashStays(systems, i, inv, unfreeze, tag, date, dryrun);
      } else {
        assert systems[..i] == systems;
      }
    }
  }

  // ---------------------------------------------------------------------------
  // main

  datatype Options = Options(
    targetSystems: seq<string>, targetGroups: seq<string>, exclude: seq<string>,
    targetLabel: string, targetDate: string,
    dryrun: bool, unfreeze: bool, noRemap: bool, allSubchannels: bool)

  /** No clone comes after a call of another kind. */
  predicate ClonesFirst(calls: seq<Call>) {
    forall i, j :: 0 <= i < j < |calls| && !calls[i].CloneChannel? ==> !calls[j].CloneChannel?
  }

  /** No call of another kind comes after a delete. */
  predicate DeletesLast(calls: seq<Call>) {
    forall i, j :: 0 <= i < j < |calls| && calls[i].DeleteChannel? ==> calls[j].DeleteChannel?
  }

  lemma ClonesFirstConcat(a: seq<Call>, b: seq<Call>)
    requires forall c :: c in a ==> c.CloneChannel?
    requires forall c :: c in b ==> !c.CloneChannel?
    ensures ClonesFirst(a + b)
  {
    forall i, j | 0 <= i < j < |a + b| && !(a + b)[i].CloneChannel? ensures !(a + b)[j].CloneChannel? {
      assert (a + b)[j] == b[j - |a|];
    }
  }

  lemma DeletesLastConcat(a: seq<Call>, b: seq<Call>)
    requires forall c :: c in a ==> !c.DeleteChannel?
    requires forall c :: c in b ==> c.DeleteChannel?
    ensures DeletesLast(a + b)
  {
    forall i, j | 0 <= i < j < |a + b| && (a + b)[i].DeleteChannel? ensures (a + b)[j].DeleteChannel? {
      assert (a + b)[i] == b[i - |a|];
      assert (a + b)[j] == b[j - |a|];
    }
  }

  /** The freeze date: the `--date` value, or today when it was left at its default. */
  function FreezeDate(targetDate: string, today: string): string {
    if targetDate == DateSentinel then today else targetDate
  }

  /** `main` on freeze: clone the tree, then remap the systems onto the clones. */
  method FreezeSteps(state: FreezeState, inv: Inventory, tag: string, date: string, dryrun: bool, noRemap: bool)
    returns (outcome: Outcome, calls: seq<Call>, errors: seq<RemapError>)
    requires state.Valid()
    ensures var remap := RemapOutcome(state.systems, inv, false, tag, date, dryrun, noRemap);
            && outcome == (if remap.crashed then Crashed else Completed)
            && calls == (if dryrun then [] else ClonePlan(state.bases, state.children, tag, date)) + remap.calls
            && errors == remap.errors
    ensures dryrun ==> calls == [] && errors == []
    ensures ClonesFirst(calls) && forall c :: c in calls ==> !c.DeleteChannel?
    ensures forall c :: c in calls && c.CloneChannel? ==> c.cloneLabel == FrozenLabel(c.source, tag, date)
  {
    var clones := state.CloneChannels(tag, date, dryrun);
    ClonePlanLabels(state.bases, state.children, tag, date);
    var remap := state.RemapSystems(inv, false, tag, date, dryrun, noRemap);
    outcome := if remap.crashed then Crashed else Completed;
    calls := clones + remap.calls;
    errors := remap.errors;
    ClonesFirstConcat(clones, remap.calls);
    forall c | c in calls && c.CloneChannel? ensures c.cloneLabel == FrozenLabel(c.source, tag, date) {
      assert c in clones;
      assert WellNamed(c, state.bases, state.children, tag, date);
    }
  }

  /** `main` on unfreeze: remap the systems back, then delete the clones. */
  method UnfreezeSteps(state: FreezeState, inv: Inventory, tag: string, date: string, dryrun: bool, noRemap: bool)
    returns (outcome: Outcome, calls: seq<Call>, errors: seq<RemapError>)
    requires state.Valid()
    ensures var remap := RemapOutcome(state.systems, inv, true, tag, date, dryrun, noRemap);
            && outcome == (if remap.crashed || state.bases == [] then Crashed else Completed)
            && calls == remap.calls
                        + (if remap.crashed || state.bases == [] || dryrun then []
                           else DeletePlan(state.bases, state.children, tag, date))
            && errors == remap.errors
    ensures dryrun ==> calls == [] && errors == []
    ensures DeletesLast(calls) && forall c :: c in calls ==> !c.CloneChannel?
  {
    var remap := state.RemapSystems(inv, true, tag, date, dryrun, noRemap);
    if remap.crashed {
      DeletesLastConcat(remap.calls, []);
      assert remap.calls + [] == remap.calls;
      return Crashed, remap.calls, remap.errors;
    }
    var crashed, deletes := state.DeleteClones(tag, date, dryrun);
    outcome := if crashed then Crashed else Completed;
    calls := remap.calls + deletes;
    errors := remap.errors;
    DeletesLastConcat(remap.calls, deletes);
  }

  /**
   * The script's `main` once its options are parsed; `today` stands for the clock
   * and `blacklisted` for the shared blacklist check.
   */
  method Run(opts: Options, today: string, inv: Inventory, blacklisted: (string, seq<string>) -> bool)
    returns (outcome: Outcome, calls: seq<Call>, errors: seq<RemapError>)
    ensures outcome == Exited <==> opts.targetSystems == [] && opts.targetGroups == []
    ensures outcome == Exited ==> calls == [] && errors == []
    ensures opts.dryrun ==> calls == [] && errors == []
    ensures !opts.unfreeze ==> ClonesFirst(calls) && forall c :: c in calls ==> !c.DeleteChannel?
    ensures opts.unfreeze ==> DeletesLast(calls) && forall c :: c in calls ==> !c.CloneChannel?
    ensures forall c :: c in calls && c.CloneChannel? ==>
              c.cloneLabel == FrozenLabel(c.source, NormaliseLabel(opts.targetLabel), FreezeDate(opts.targetDate, today))
    ensures outcome != Exited && !opts.unfreeze ==>
              var targets := Targets(SplitOption(opts.targetSystems), SplitOption(opts.targetGroups),
                                     SplitOption(opts.exclude), inv, blacklisted);
              var topo := ChannelTree(targets, inv, opts.allSubchannels);
              var tag, date := NormaliseLabel(opts.targetLabel), FreezeDate(opts.targetDate, today);
              var remap := RemapOutcome(targets, inv, false, tag, date, opts.dryrun, opts.noRemap);
              && outcome == (if remap.crashed then Crashed else Completed)
              && calls == (if opts.dryrun then [] else ClonePlan(topo.bases, topo.children, tag, date)) + remap.calls
              && errors == remap.errors
    ensures outcome != Exited && opts.unfreeze ==>
              var targets := Targets(SplitOption(opts.targetSystems), SplitOption(opts.targetGroups),
                                     SplitOption(opts.exclude), inv, blacklisted);
              var topo := ChannelTree(targets, inv, opts.allSubchannels);
              var tag, date := NormaliseLabel(opts.targetLabel), FreezeDate(opts.targetDate, today);
              var remap := RemapOutcome(targets, inv, true, tag, date, opts.dryrun, opts.noRemap);
              && outcome == (if remap.crashed || topo.bases == [] then Crashed else Completed)
              && calls == remap.calls
                          + (if remap.crashed || topo.bases == [] || opts.dryrun then []
                             else DeletePlan(topo.bases, topo.children, tag, date))
              && errors == remap.errors
  {
    if |opts.targetSystems| == 0 && |opts.targetGroups| == 0 {
      return Exited, [], [];
    }
    var date := FreezeDate(opts.targetDate, today);
    var tag := NormaliseLabel(opts.targetLabel);
    var names := SplitOption(opts.targetSystems);
    var groups := SplitOption(opts.targetGroups);
    var exclude := SplitOption(opts.exclude);

    var state := new FreezeState();
    state.ResolveTargets(names, groups, exclude, inv, blacklisted);
    assert state.systems == Targets(names, groups, exclude, inv, blacklisted);
    state.ScanChannels(inv, opts.allSubchannels);
    if opts.unfreeze {
      outcome, calls, errors := UnfreezeSteps(state, inv, tag, date, opts.dryrun, opts.noRemap);
    } else {
      outcome, calls, errors := FreezeSteps(state, inv, tag, date, opts.dryrun, opts.noRemap);
    }
  }
}
