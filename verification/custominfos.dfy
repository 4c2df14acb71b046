/**
 * satprep_install_custominfos: creates (or, with force, overwrites) the custom
 * information keys the other tools read, or removes them all again.
 *
 * The server's listing of defined keys (as the text `str()` gives it) and its
 * result codes are inputs; the key calls issued are returned.
 */
module CustomInfos {
  import opened Common
  import opened Strings

  /** A custom information key and its description. */
  datatype KeyDef = KeyDef(name: string, description: string)

  /** The keys installed, in the order the dictionary is walked. */
  const CustomKeys: seq<KeyDef> := [
    KeyDef("SYSTEM_OWNER", "Defines the system's owner - this is needed for creating automated maintenance reports"),
    KeyDef("SYSTEM_MONITORING", "Defines whether the system is monitored"),
    KeyDef("SYSTEM_MONITORING_NOTES", "Defines additional notes to the system's monitoring state (e.g. test system)"),
    KeyDef("SYSTEM_CLUSTER", "Defines whether the system is part of a cluster"),
    KeyDef("SYSTEM_BACKUP_NOTES", "Defines additional notes to the system's backup state (e.g. test system)"),
    KeyDef("SYSTEM_BACKUP", "Defines whether the system is backed up"),
    KeyDef("SYSTEM_ANTIVIR_NOTES", "Defines additional notes to the anti-virus state of a system (e.g. anti-virus is implemented using XYZ)"),
    KeyDef("SYSTEM_ANTIVIR", "Defines whether the system is protected with anti-virus software"),
    KeyDef("SYSTEM_PROD", "Defines whehter the system is a production host"),
    KeyDef("SYSTEM_MONITORING_HOST", "Alternate monitoring server URL"),
    KeyDef("SYSTEM_MONITORING_HOST_AUTH", "Authentification location for alternate monitoring server"),
    KeyDef("SYSTEM_MONITORING_NAME", "Defines an alternative monitoring hostname"),
    KeyDef("SYSTEM_VIRT_HOST", "Alternate virtual host (e.g. ESXi, vCenter) - use libvirt URI"),
    KeyDef("SYSTEM_VIRT_HOST_AUTH", "Authentification location for alternate virtual host"),
    KeyDef("SYSTEM_VIRT_SNAPSHOT", "Defines whether the system should be protected by a snapshot"),
    KeyDef("SYSTEM_VIRT_VMNAME", "Defines an alternative VM object name")]

  /** The calls made on the server's custom-information API. */
  datatype KeyCall =
    | CreateKey(name: string, description: string)
    | UpdateKey(name: string, description: string)
    | DeleteKey(name: string)

  /**
   * A key counts as defined when its name occurs anywhere in the text of the
   * server's key listing, so a key whose name begins another defined key's name
   * counts as defined too.
   */
  predicate Defined(listing: string, name: string) {
    Contains(listing, name)
  }

  /** A listing that holds a longer name also holds every prefix of it. */
  lemma DefinedByPrefix(listing: string, name: string, rest: string)
    requires Defined(listing, name + rest)
    ensures Defined(listing, name)
  {
    var i := Find(listing, name + rest);
    assert listing[i..i + |name|] == (name + rest)[..|name|];
    ContainsAt(listing, name, i);
  }

  /** `SYSTEM_MONITORING` counts as defined as soon as `SYSTEM_MONITORING_NOTES` is. */
  lemma MonitoringShadowed(listing: string)
    requires Defined(listing, "SYSTEM_MONITORING_NOTES")
    ensures Defined(listing, "SYSTEM_MONITORING")
  {
    assert "SYSTEM_MONITORING_NOTES" == "SYSTEM_MONITORING" + "_NOTES";
    DefinedByPrefix(listing, "SYSTEM_MONITORING", "_NOTES");
  }

  /** The call made for one key: create when undefined, overwrite when forced, none otherwise. */
  function KeyDecision(k: KeyDef, listing: string, force: bool): (c: Option<KeyCall>)
    ensures c == Some(CreateKey(k.name, k.description)) <==> !Defined(listing, k.name)
    ensures c == Some(UpdateKey(k.name, k.description)) <==> Defined(listing, k.name) && force
    ensures c == None <==> Defined(listing, k.name) && !force
  {
    if Defined(listing, k.name) then
      if force then Some(UpdateKey(k.name, k.description)) else None
    else Some(CreateKey(k.name, k.description))
  }

  function CreateCalls(keys: seq<KeyDef>, listing: string, force: bool): seq<KeyCall> {
    if keys == [] then []
    else
      var c := KeyDecision(keys[|keys| - 1], listing, force);
      CreateCalls(keys[..|keys| - 1], listing, force) + (if c.Some? then [c.value] else [])
  }

  predicate DistinctLabels(keys: seq<KeyDef>) {
    forall i, j :: 0 <= i < j < |keys| ==> keys[i].name != keys[j].name
  }

  /**
   * Every call names one of the keys with its own description; with distinct
   * names, each key is created exactly when undefined, overwritten exactly when
   * defined and forced, and left alone otherwise.
   */
  lemma {:induction false} CreateCallsExactly(keys: seq<KeyDef>, listing: string, force: bool)
    requires DistinctLabels(keys)
    ensures forall c :: c in CreateCalls(keys, listing, force) ==>
              !c.DeleteKey? && exists i :: 0 <= i < |keys| && c.name == keys[i].name && c.description == keys[i].description
    ensures forall i :: 0 <= i < |keys| ==>
              (CreateKey(keys[i].name, keys[i].description) in CreateCalls(keys, listing, force) <==> !Defined(listing, keys[i].name))
              && (UpdateKey(keys[i].name, keys[i].description) in CreateCalls(keys, listing, force) <==> Defined(listing, keys[i].name) && force)
    decreases |keys|
  {
    if keys != [] {
      var init := keys[..|keys| - 1];
      assert forall i :: 0 <= i < |init| ==> init[i] == keys[i];
      CreateCallsExactly(init, listing, force);
      LastDecisionOwn(keys, listing, force);
    }
  }

  /** With distinct names, the last key's call never names an earlier key. */
  lemma LastDecisionOwn(keys: seq<KeyDef>, listing: string, force: bool)
    requires keys != [] && DistinctLabels(keys)
    ensures forall i :: 0 <= i < |keys| - 1 ==>
              KeyDecision(keys[|keys| - 1], listing, force) != Some(CreateKey(keys[i].name, keys[i].description))
              && KeyDecision(keys[|keys| - 1], listing, force) != Some(UpdateKey(keys[i].name, keys[i].description))
  {
    var last := keys[|keys| - 1];
    forall i | 0 <= i < |keys| - 1
      ensures KeyDecision(last, listing, force) != Some(CreateKey(keys[i].name, keys[i].description))
      ensures KeyDecision(last, listing, force) != Some(UpdateKey(keys[i].name, keys[i].description))
    {
      assert keys[i].name != last.name;
    }
  }

  /** Without force no existing key is overwritten: no update is ever issued. */
  lemma {:induction false} NoForceNoUpdate(keys: seq<KeyDef>, listing: string)
    ensures forall c :: c in CreateCalls(keys, listing, false) ==> c.CreateKey?
    decreases |keys|
  {
    if keys != [] {
      NoForceNoUpdate(keys[..|keys| - 1], listing);
    }
  }

  /** No two keys of the table share a name. */
  lemma CustomKeysDistinct()
    ensures DistinctLabels(CustomKeys)
  {
    forall i, j | 0 <= i < j < |CustomKeys| ensures CustomKeys[i].name != CustomKeys[j].name {
      var a, b := CustomKeys[i].name, CustomKeys[j].name;
      if |a| == |b| {
        assert a[|a| - 2] != b[|b| - 2];
      }
    }
  }

  /** One more key adds its own decision, if any, to the calls. */
  lemma CreateCallsStep(keys: seq<KeyDef>, listing: string, force: bool, i: int)
    requires 0 <= i < |keys|
    ensures CreateCalls(keys[..i + 1], listing, force)
         == CreateCalls(keys[..i], listing, force)
            + (var c := KeyDecision(keys[i], listing, force); if c.Some? then [c.value] else [])
  {
    assert keys[..i + 1][..i] == keys[..i];
  }

  /**
   * The loop of `create_custom_keys` over a key table. `resultFor` is the
   * server's result code for a call; the permission warning for a failed call
   * is only given for keys outside the table walked, so it is never given.
   */
  method CreateEach(keys: seq<KeyDef>, listing: string, force: bool, resultFor: KeyCall -> int)
    returns (calls: seq<KeyCall>, permissionWarnings: seq<string>)
    ensures calls == CreateCalls(keys, listing, force)
    ensures permissionWarnings == []
  {
    calls, permissionWarnings := [], [];
    var i := 0;
    while i < |keys|
      invariant 0 <= i <= |keys|
      invariant calls == CreateCalls(keys[..i], listing, force)
      invariant permissionWarnings == []
    {
      CreateCallsStep(keys, listing, force, i);
      var newKey := keys[i];
      var resultcode := 0;
      if Defined(listing, newKey.name) {
        if force {
          calls := calls + [UpdateKey(newKey.name, newKey.description)];
          resultcode := resultFor(UpdateKey(newKey.name, newKey.description));
        }
      } else {
        calls := calls + [CreateKey(newKey.name, newKey.description)];
        resultcode := resultFor(CreateKey(newKey.name, newKey.description));
      }
      if resultcode != 1 && newKey !in keys {
        permissionWarnings := permissionWarnings + [newKey.name];
      }
      i := i + 1;
    }
    assert keys[..i] == keys;
  }

  /** `create_custom_keys`: one decision per key of the table. */
  method CreateCustomKeys(listing: string, force: bool, resultFor: KeyCall -> int)
    returns (calls: seq<KeyCall>, permissionWarnings: seq<string>)
    ensures calls == CreateCalls(CustomKeys, listing, force)
    ensures permissionWarnings == []
  {
    calls, permissionWarnings := CreateEach(CustomKeys, listing, force, resultFor);
  }

  function DeleteCalls(keys: seq<KeyDef>): (calls: seq<KeyCall>)
    ensures |calls| == |keys|
  {
    if keys == [] then [] else DeleteCalls(keys[..|keys| - 1]) + [DeleteKey(keys[|keys| - 1].name)]
  }

  /** Uninstalling deletes each key once, in order, and creates or updates nothing. */
  lemma {:induction false} DeleteCallsExactly(keys: seq<KeyDef>)
    ensures forall i :: 0 <= i < |keys| ==> DeleteCalls(keys)[i] == DeleteKey(keys[i].name)
    decreases |keys|
  {
    if keys != [] {
      DeleteCallsExactly(keys[..|keys| - 1]);
    }
  }

  /** The keys warned about after uninstalling: those whose delete did not return 1, in table order. */
  function FailedKeys(keys: seq<KeyDef>, resultFor: KeyCall -> int): (failed: seq<string>)
    ensures |failed| <= |keys|
    ensures forall l :: l in failed <==>
              exists i :: 0 <= i < |keys| && l == keys[i].name && resultFor(DeleteKey(l)) != 1
  {
    if keys == [] then []
    else
      var init := keys[..|keys| - 1];
      var key := keys[|keys| - 1].name;
      var rest := FailedKeys(init, resultFor);
      assert forall i :: 0 <= i < |init| ==> init[i] == keys[i];
      if resultFor(DeleteKey(key)) != 1 then rest + [key] else rest
  }

  /** The delete loop over a key table: one delete per key, and the keys whose delete failed. */
  method DeleteEach(keys: seq<KeyDef>, resultFor: KeyCall -> int) returns (calls: seq<KeyCall>, failed: seq<string>)
    ensures calls == DeleteCalls(keys)
    ensures failed == FailedKeys(keys, resultFor)
    ensures forall l :: l in failed <==>
              exists i :: 0 <= i < |keys| && l == keys[i].name && resultFor(DeleteKey(l)) != 1
  {
    calls, failed := [], [];
    var i := 0;
    while i < |keys|
      invariant 0 <= i <= |keys|
      invariant calls == DeleteCalls(keys[..i])
      invariant failed == FailedKeys(keys[..i], resultFor)
    {
      assert keys[..i + 1][..i] == keys[..i];
      var key := keys[i].name;
      calls := calls + [DeleteKey(key)];
      var resultcode := resultFor(DeleteKey(key));
      if resultcode != 1 {
        failed := failed + [key];
      }
      i := i + 1;
    }
    assert keys[..i] == keys;
  }

  /**
   * `remove_custom_keys`: one delete per key of the table; the keys whose
   * delete did not report success are the ones warned about.
   */
  method RemoveCustomKeys(resultFor: KeyCall -> int) returns (calls: seq<KeyCall>, failed: seq<string>)
    ensures calls == DeleteCalls(CustomKeys)
    ensures failed == FailedKeys(CustomKeys, resultFor)
    ensures forall l :: l in failed <==>
              exists i :: 0 <= i < |CustomKeys| && l == CustomKeys[i].name && resultFor(DeleteKey(l)) != 1
  {
    calls, failed := DeleteEach(CustomKeys, resultFor);
  }

  /**
   * `main`: a dry run exits before logging in and calls nothing; otherwise all
   * keys are removed or installed. The server's answers come from `resultFor`,
   * which always answers: a fault from `createKey`, `updateKey` or `deleteKey`,
   * which would end the script, is not modelled, so the run never crashes.
   */
  method Run(dryrun: bool, uninstall: bool, force: bool, listing: string, resultFor: KeyCall -> int)
    returns (outcome: Outcome, calls: seq<KeyCall>)
    ensures outcome == Exited <==> dryrun
    ensures outcome != Crashed
    ensures dryrun ==> calls == []
    ensures !dryrun && uninstall ==> calls == DeleteCalls(CustomKeys)
    ensures !dryrun && !uninstall ==> calls == CreateCalls(CustomKeys, listing, force)
  {
    if dryrun {
      return Exited, [];
    }
    if uninstall {
      var failed;
      calls, failed := RemoveCustomKeys(resultFor);
    } else {
      var warnings;
      calls, warnings := CreateCustomKeys(listing, force, resultFor);
    }
    outcome := Completed;
  }
}
