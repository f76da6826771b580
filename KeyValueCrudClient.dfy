/**
 * How hestia's key-value CRUD client names the keys it stores items,
 * item sets, field indexes and locks under, and the key lists `remove`
 * sends to the store.
 *
 * The store itself is reached through make_request; here its answers are
 * parameters (whether each response was ok) and the requests sent are
 * results.
 */
module KeyValueCrudClient {
  import opened Wrappers
  import opened KeyValueStoreRequest

  /** CrudLockType. */
  datatype LockType = ReadLock | WriteLock

  /** CrudIdentifier, reduced to its primary key, which may be unset. */
  datatype CrudIdentifier = CrudIdentifier(primaryKey: Option<string>)

  /**
   * What the key names depend on: the configured prefix m_config.m_prefix,
   * the item type the adapters report, and the store endpoint.
   */
  datatype KeyScheme = KeyScheme(configPrefix: string, itemType: string, endpoint: string)
  {
    /** get_prefix. */
    function Prefix(): string
    {
      configPrefix + ":" + itemType
    }

    /** get_item_key. */
    function ItemKey(id: string): string
    {
      Prefix() + ":" + id
    }

    /** get_set_key. */
    function SetKey(): string
    {
      Prefix() + "s"
    }

    /** get_field_key. */
    function FieldKey(field: string, value: string): string
    {
      Prefix() + "_" + field + ":" + value
    }

    /** get_lock_key: "r" for a read lock, "w" otherwise. */
    function LockKey(id: string, lockType: LockType): string
    {
      Prefix() + "_lock" + (if lockType == ReadLock then "r" else "w") + ":" + id
    }
  }

  /** The character that follows a prefix tells the kinds of key apart. */
  lemma CharAfter(p: string, rest: string)
    requires rest != []
    ensures (p + rest)[|p|] == rest[0]
  {
  }

  /** Dropping a shared prefix. */
  lemma DropPrefix(p: string, a: string, b: string)
    requires p + a == p + b
    ensures a == b
  {
    assert a == (p + a)[|p|..];
    assert b == (p + b)[|p|..];
  }

  /**
   * For one scheme, an item key is never the set key, a field key or a lock
   * key, and the set key is never a field or lock key: after the prefix
   * comes ':' for items, 's' for the set and '_' for fields and locks.
   */
  lemma KeyKindsDiffer(scheme: KeyScheme, id: string, field: string, value: string, other: string, lockType: LockType)
    ensures scheme.ItemKey(id) != scheme.SetKey()
    ensures scheme.ItemKey(id) != scheme.FieldKey(field, value)
    ensures scheme.ItemKey(id) != scheme.LockKey(other, lockType)
    ensures scheme.SetKey() != scheme.FieldKey(field, value)
    ensures scheme.SetKey() != scheme.LockKey(other, lockType)
  {
    var p := scheme.Prefix();
    var lock := if lockType == ReadLock then "r" else "w";
    CharAfter(p, ":" + id);
    CharAfter(p, "s");
    CharAfter(p, "_" + field + ":" + value);
    assert scheme.FieldKey(field, value) == p + ("_" + field + ":" + value);
    CharAfter(p, "_lock" + lock + ":" + other);
    assert scheme.LockKey(other, lockType) == p + ("_lock" + lock + ":" + other);
  }

  /** Distinct ids have distinct item keys. */
  lemma ItemKeyInjective(scheme: KeyScheme, a: string, b: string)
    requires scheme.ItemKey(a) == scheme.ItemKey(b)
    ensures a == b
  {
    DropPrefix(scheme.Prefix() + ":", a, b);
  }

  /** Lock keys name both the id and the lock type: read and write locks on one id never share a key. */
  lemma LockKeyInjective(scheme: KeyScheme, a: string, s: LockType, b: string, t: LockType)
    requires scheme.LockKey(a, s) == scheme.LockKey(b, t)
    ensures a == b && s == t
  {
    var p := scheme.Prefix() + "_lock";
    var ls := if s == ReadLock then "r" else "w";
    var lt := if t == ReadLock then "r" else "w";
    assert scheme.LockKey(a, s) == p + (ls + ":" + a);
    assert scheme.LockKey(b, t) == p + (lt + ":" + b);
    DropPrefix(p, ls + ":" + a, lt + ":" + b);
    assert ls[0] == (ls + ":" + a)[0];
    assert lt[0] == (lt + ":" + b)[0];
    assert s == t;
    DropPrefix(ls + ":", a, b);
  }

  /** Field keys and lock keys can coincide: a field named "lockr" indexes under the read-lock key of its value. */
  lemma FieldKeyMeetsLockKey(scheme: KeyScheme, id: string)
    ensures scheme.FieldKey("lockr", id) == scheme.LockKey(id, ReadLock)
    ensures scheme.FieldKey("lockw", id) == scheme.LockKey(id, WriteLock)
  {
  }

  /** get_item_keys: one item key per id appended after the keys already there, in order. */
  method GetItemKeys(scheme: KeyScheme, ids: seq<string>, keys: seq<string>) returns (out: seq<string>)
    ensures |out| == |keys| + |ids|
    ensures out[..|keys|] == keys
    ensures forall i :: 0 <= i < |ids| ==> out[|keys| + i] == scheme.ItemKey(ids[i])
    ensures forall i, j :: |keys| <= i < j < |out| && ids[i - |keys|] != ids[j - |keys|] ==> out[i] != out[j]
  {
    out := keys;
    for n := 0 to |ids|
      invariant |out| == |keys| + n
      invariant out[..|keys|] == keys
      invariant forall i :: 0 <= i < n ==> out[|keys| + i] == scheme.ItemKey(ids[i])
    {
      out := out + [scheme.Prefix() + ":" + ids[n]];
    }
    forall i, j | |keys| <= i < j < |out| && ids[i - |keys|] != ids[j - |keys|]
      ensures out[i] != out[j]
    {
      if out[i] == out[j] {
        ItemKeyInjective(scheme, ids[i - |keys|], ids[j - |keys|]);
      }
    }
  }

  /** The primary keys of the identifiers that have one, in order. */
  function PrimaryKeys(ids: seq<CrudIdentifier>): seq<string>
  {
    if ids == [] then []
    else
      var last := ids[|ids| - 1];
      PrimaryKeys(ids[..|ids| - 1]) + (if last.primaryKey.Some? then [last.primaryKey.value] else [])
  }

  /** A key is among the primary keys exactly when some identifier has it. */
  lemma {:induction false} PrimaryKeysMembers(ids: seq<CrudIdentifier>, k: string)
    ensures k in PrimaryKeys(ids) <==> exists i :: 0 <= i < |ids| && ids[i].primaryKey == Some(k)
  {
    if ids != [] {
      var front := ids[..|ids| - 1];
      PrimaryKeysMembers(front, k);
      if exists i :: 0 <= i < |ids| && ids[i].primaryKey == Some(k) {
        var i :| 0 <= i < |ids| && ids[i].primaryKey == Some(k);
        if i < |ids| - 1 {
          assert front[i] == ids[i];
        }
      }
      if exists i :: 0 <= i < |front| && front[i].primaryKey == Some(k) {
        var i :| 0 <= i < |front| && front[i].primaryKey == Some(k);
        assert ids[i] == front[i];
      }
    }
  }

  /**
   * The key loop of remove: for each identifier with a primary key, its item
   * key for STRING_REMOVE and the (set key, primary key) pair for SET_REMOVE.
   */
  method RemoveKeys(scheme: KeyScheme, ids: seq<CrudIdentifier>)
    returns (stringKeys: seq<string>, setKeys: seq<KeyValuePair>)
    ensures |stringKeys| == |setKeys| == |PrimaryKeys(ids)|
    ensures forall i :: 0 <= i < |stringKeys| ==>
              stringKeys[i] == scheme.ItemKey(PrimaryKeys(ids)[i]) && setKeys[i] == (scheme.SetKey(), PrimaryKeys(ids)[i])
  {
    stringKeys, setKeys := [], [];
    for n := 0 to |ids|
      invariant |stringKeys| == |setKeys| == |PrimaryKeys(ids[..n])|
      invariant forall i :: 0 <= i < |stringKeys| ==>
                  stringKeys[i] == scheme.ItemKey(PrimaryKeys(ids[..n])[i]) && setKeys[i] == (scheme.SetKey(), PrimaryKeys(ids[..n])[i])
    {
      assert ids[..n + 1][..n] == ids[..n];
      if ids[n].primaryKey.Some? {
        stringKeys := stringKeys + [scheme.ItemKey(ids[n].primaryKey.value)];
        setKeys := setKeys + [(scheme.SetKey(), ids[n].primaryKey.value)];
      }
    }
    assert ids[..|ids|] == ids;
  }

  /** error_check: a response that is not ok becomes an error naming the request. */
  function ErrorCheck(identifier: string, ok: bool): Result<(), string>
  {
    if ok then Success(()) else Failure(identifier)
  }

  /**
   * The outcome of remove as written: the second check is given the
   * STRING_REMOVE response again, so the SET_REMOVE response is never looked at.
   */
  function RemoveOutcome(stringOk: bool, setOk: bool): Result<(), string>
  {
    if !stringOk then ErrorCheck(MethodAsString(StringRemove), stringOk)
    else ErrorCheck(MethodAsString(SetRemove), stringOk)
  }

  /** A failed SET_REMOVE goes unreported: the outcome does not depend on the set response. */
  lemma SetRemoveFailureIgnored(stringOk: bool)
    ensures RemoveOutcome(stringOk, false) == RemoveOutcome(stringOk, true)
    ensures RemoveOutcome(true, false) == Success(())
  {
  }

  /** The outcome of remove as evidently intended: each response is checked under its own name. */
  function RemoveOutcomeIntended(stringOk: bool, setOk: bool): Result<(), string>
  {
    if !stringOk then ErrorCheck(MethodAsString(StringRemove), stringOk)
    else ErrorCheck(MethodAsString(SetRemove), setOk)
  }

  /** As intended, remove succeeds exactly when both requests do, and a failure names the failing request. */
  lemma RemoveOutcomeIntendedReports(stringOk: bool, setOk: bool)
    ensures RemoveOutcomeIntended(stringOk, setOk).Success? <==> stringOk && setOk
    ensures !stringOk ==> RemoveOutcomeIntended(stringOk, setOk) == Failure("STRING_REMOVE")
    ensures stringOk && !setOk ==> RemoveOutcomeIntended(stringOk, setOk) == Failure("SET_REMOVE")
  {
  }

  /**
   * remove as evidently intended: sends STRING_REMOVE with the item keys
   * and, unless that fails, SET_REMOVE with the set entries, checking each
   * response under its own name; returns the requests sent and the outcome.
   * The code as written checks the STRING_REMOVE response twice
   * (SetRemoveFailureIgnored).
   */
  method Remove(scheme: KeyScheme, ids: seq<CrudIdentifier>, stringOk: bool, setOk: bool)
    returns (sent: seq<Request>, outcome: Result<(), string>)
    ensures |sent| == (if stringOk then 2 else 1)
    ensures sent[0].requestMethod == StringRemove && sent[0].url == scheme.endpoint
    ensures |sent[0].GetKeys()| == |PrimaryKeys(ids)|
    ensures forall i :: 0 <= i < |PrimaryKeys(ids)| ==> sent[0].GetKeys()[i] == scheme.ItemKey(PrimaryKeys(ids)[i])
    ensures stringOk ==> sent[1].requestMethod == SetRemove && sent[1].url == scheme.endpoint &&
                         |sent[1].GetKvPairs()| == |PrimaryKeys(ids)| &&
                         forall i :: 0 <= i < |PrimaryKeys(ids)| ==> sent[1].GetKvPairs()[i] == (scheme.SetKey(), PrimaryKeys(ids)[i])
    ensures outcome == RemoveOutcomeIntended(stringOk, setOk)
  {
    var stringKeys, setKeys := RemoveKeys(scheme, ids);
    sent := [WithKeys(StringRemove, stringKeys, scheme.endpoint)];
    outcome := ErrorCheck(MethodAsString(StringRemove), stringOk);
    if outcome.Failure? {
      return;
    }
    sent := sent + [WithPairs(SetRemove, setKeys, scheme.endpoint)];
    outcome := ErrorCheck(MethodAsString(SetRemove), setOk);
  }
}
