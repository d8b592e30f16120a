/** The permission registry: a map from operation key
    "/<service full name>/<method name>" to the permission declared on that
    method, built by scanning the service metadata and published by
    replacing the whole map at once. */
module AuthzService {
  import opened Errors

  /** The permission extension attached to an RPC method: the object and
      action it acts on, and the roles declared to hold it. */
  datatype PermissionOption = PermissionOption(obj: string, act: string, roles: seq<string>)

  /** What the metadata says about one method's options: no options message
      at all, or an options message whose permission extension is either
      missing, of another type or nil (None), or present (Some). */
  datatype MethodOptions = NilOptions | MethodOptions(permission: Option<PermissionOption>)

  /** One method met by the metadata walk, with its service's full name. */
  datatype MethodRecord = MethodRecord(service: string, methodName: string, options: MethodOptions)

  /** The operation key the transport reports for a method. */
  function OperationKey(service: string, methodName: string): string
  {
    "/" + service + "/" + methodName
  }

  function KeyOf(rec: MethodRecord): string
  {
    OperationKey(rec.service, rec.methodName)
  }

  /** The permission a method carries, if any. */
  function PermissionOf(rec: MethodRecord): Option<PermissionOption>
  {
    match rec.options
    case NilOptions => None
    case MethodOptions(p) => p
  }

  /** The record carries a permission and names operation `op`. */
  predicate Declares(rec: MethodRecord, op: string)
  {
    PermissionOf(rec).Some? && KeyOf(rec) == op
  }

  /** The map the scan builds, records taken in walk order, so that a later
      record with the same key replaces an earlier one. */
  function BuildMap(recs: seq<MethodRecord>): map<string, PermissionOption>
  {
    if recs == [] then map[]
    else
      var m := BuildMap(recs[..|recs| - 1]);
      var last := recs[|recs| - 1];
      match PermissionOf(last)
      case None => m
      case Some(p) => m[KeyOf(last) := p]
  }

  /** An operation is in the built map exactly when some record declares a
      permission for it: methods without options or without a permission
      never appear, and every method with one does. */
  lemma {:induction false} BuildMapKeys(recs: seq<MethodRecord>, op: string)
    ensures op in BuildMap(recs) <==> exists i :: 0 <= i < |recs| && Declares(recs[i], op)
  {
    if recs != [] {
      var init := recs[..|recs| - 1];
      BuildMapKeys(init, op);
      if exists i :: 0 <= i < |recs| && Declares(recs[i], op) {
        var i :| 0 <= i < |recs| && Declares(recs[i], op);
        if i < |recs| - 1 {
          assert Declares(init[i], op);
        }
      }
      if exists i :: 0 <= i < |init| && Declares(init[i], op) {
        var i :| 0 <= i < |init| && Declares(init[i], op);
        assert Declares(recs[i], op);
      }
    }
  }

  /** The value stored for a key is the permission of the LAST record that
      declares that key. */
  lemma {:induction false} BuildMapLastWins(recs: seq<MethodRecord>, i: nat)
    requires i < |recs| && PermissionOf(recs[i]).Some?
    requires forall j :: i < j < |recs| ==> !Declares(recs[j], KeyOf(recs[i]))
    ensures KeyOf(recs[i]) in BuildMap(recs)
    ensures BuildMap(recs)[KeyOf(recs[i])] == PermissionOf(recs[i]).value
  {
    var init := recs[..|recs| - 1];
    if i < |recs| - 1 {
      forall j | i < j < |init| ensures !Declares(init[j], KeyOf(recs[i])) {
        assert init[j] == recs[j];
      }
      BuildMapLastWins(init, i);
      assert !Declares(recs[|recs| - 1], KeyOf(recs[i]));
    }
  }

  /** Conversely, every entry of the built map is the permission of a record
      that declares its key and that no later record overrides. */
  lemma {:induction false} BuildMapValue(recs: seq<MethodRecord>, op: string)
    requires op in BuildMap(recs)
    ensures exists i :: 0 <= i < |recs| && Declares(recs[i], op) &&
                        BuildMap(recs)[op] == PermissionOf(recs[i]).value &&
                        forall j :: i < j < |recs| ==> !Declares(recs[j], op)
  {
    var init := recs[..|recs| - 1];
    var i := |recs| - 1;
    if !Declares(recs[i], op) {
      BuildMapValue(init, op);
      var k :| 0 <= k < |init| && Declares(init[k], op) &&
               BuildMap(init)[op] == PermissionOf(init[k]).value &&
               forall j :: k < j < |init| ==> !Declares(init[j], op);
      assert recs[k] == init[k];
      assert forall j :: k < j < |recs| ==> !Declares(recs[j], op) by {
        forall j | k < j < |recs| ensures !Declares(recs[j], op) {
          if j < |init| { assert recs[j] == init[j]; }
        }
      }
    }
  }

  /** Every key of the built map has the shape "/" + service + "/" + methodName
      of some permission-carrying record, and starts with a slash. */
  lemma KeyShape(recs: seq<MethodRecord>, op: string)
    requires op in BuildMap(recs)
    ensures exists i :: 0 <= i < |recs| && PermissionOf(recs[i]).Some? &&
                        op == "/" + recs[i].service + "/" + recs[i].methodName
    ensures |op| > 0 && op[0] == '/'
  {
    BuildMapKeys(recs, op);
    var i :| 0 <= i < |recs| && Declares(recs[i], op);
    assert op == "/" + recs[i].service + "/" + recs[i].methodName;
  }

  /** Scans the method records and builds a fresh map, as the nested walk
      over services and methods does before it publishes anything. */
  method ScanPermissions(recs: seq<MethodRecord>) returns (newMap: map<string, PermissionOption>)
    ensures newMap == BuildMap(recs)
  {
    newMap := map[];
    var j := 0;
    while j < |recs|
      invariant j <= |recs|
      invariant newMap == BuildMap(recs[..j])
    {
      var md := recs[j];
      assert recs[..j + 1][..j] == recs[..j];
      match md.options {
        case NilOptions =>
        case MethodOptions(ext) =>
          if ext.Some? {
            newMap := newMap[OperationKey(md.service, md.methodName) := ext.value];
          }
      }
      j := j + 1;
    }
    assert recs[..j] == recs;
  }

  /** The registry. `data` models the atomic value: None before the first
      store (a load then would fail its type assertion), afterwards the map
      last stored, which is only ever replaced as a whole. */
  class AuthzRegistry {
    var data: Option<map<string, PermissionOption>>

    predicate Valid()
      reads this
    {
      data.Some?
    }

    /** Stores an empty map, then loads the permissions from the metadata. */
    constructor (recs: seq<MethodRecord>)
      ensures Valid() && data == Some(BuildMap(recs))
    {
      data := Some(map[]);
      new;
      LoadFromProto(recs);
    }

    /** Builds a new map and publishes it with one store; the result depends
        on the metadata only, never on the map published before. */
    method LoadFromProto(recs: seq<MethodRecord>)
      modifies this
      ensures Valid() && data == Some(BuildMap(recs))
    {
      var newMap := ScanPermissions(recs);
      data := Some(newMap);
    }

    /** Point lookup in the current map: the permission and true when the
        operation is registered, nothing otherwise. */
    function Get(op: string): (r: Option<PermissionOption>)
      reads this
      requires Valid()
      ensures r.Some? <==> op in data.value
      ensures r.Some? ==> r.value == data.value[op]
    {
      if op in data.value then Some(data.value[op]) else None
    }
  }

  /** After a load, a lookup succeeds exactly for the operations some
      scanned method declares a permission for. */
  lemma GetAfterLoad(r: AuthzRegistry, recs: seq<MethodRecord>, op: string)
    requires r.data == Some(BuildMap(recs))
    ensures r.Get(op).Some? <==> exists i :: 0 <= i < |recs| && Declares(recs[i], op)
  {
    BuildMapKeys(recs, op);
  }

  /** A registry built from metadata that declares no permission holds the
      empty map, so every lookup misses rather than failing. */
  lemma EmptyRegistry(r: AuthzRegistry, recs: seq<MethodRecord>, op: string)
    requires r.data == Some(BuildMap(recs))
    requires forall i :: 0 <= i < |recs| ==> PermissionOf(recs[i]).None?
    ensures r.Valid() && r.Get(op) == None
  {
    BuildMapKeys(recs, op);
  }
}
