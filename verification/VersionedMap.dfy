/**
 The values one key has had, by version: cell `v` holds the value stamped with version `v`.
 `set_at`, `get_at` and `get` are the operations of the versioned tree under the context store.
 */
module VersionedMap {
  import opened Wrappers

  type Versions<+V> = seq<Option<V>>

  function Absent<V>(count: nat): (cells: Versions<V>)
    ensures |cells| == count && forall i :: 0 <= i < count ==> cells[i] == None
  {
    seq(count, i => None)
  }

  function SetAt<V>(cells: Versions<V>, version: nat, value: V): (r: Versions<V>)
    ensures |r| == if version < |cells| then |cells| else version + 1
    ensures r[version] == Some(value)
    ensures forall i :: 0 <= i < |r| && i != version ==> r[i] == if i < |cells| then cells[i] else None
  {
    if version < |cells| then cells[version := Some(value)]
    else cells + Absent(version - |cells|) + [Some(value)]
  }

  /** The value with the greatest version. */
  function Get<V>(cells: Versions<V>): Option<V> {
    if cells == [] then None
    else if cells[|cells| - 1].Some? then cells[|cells| - 1]
    else Get(cells[..|cells| - 1])
  }

  /** The value with the greatest version at or below the one asked for. */
  function GetAt<V>(cells: Versions<V>, version: nat): Option<V> {
    Get(if version < |cells| then cells[..version + 1] else cells)
  }

  /** What `GetAt` returns was stored, and nothing newer within reach was. */
  lemma {:induction false} GetIsNewest<V>(cells: Versions<V>) returns (v: nat)
    ensures Get(cells).Some? ==> v < |cells| && cells[v] == Get(cells)
    ensures Get(cells).Some? ==> forall i :: v < i < |cells| ==> cells[i] == None
    ensures Get(cells).None? ==> forall i :: 0 <= i < |cells| ==> cells[i] == None
  {
    if cells == [] {
      v := 0;
    } else if cells[|cells| - 1].Some? {
      v := |cells| - 1;
    } else {
      v := GetIsNewest(cells[..|cells| - 1]);
    }
  }

  lemma GetAtIsNewest<V>(cells: Versions<V>, version: nat) returns (v: nat)
    ensures GetAt(cells, version).Some? ==> v <= version && v < |cells| && cells[v] == GetAt(cells, version)
    ensures GetAt(cells, version).Some? ==> forall i :: v < i <= version && i < |cells| ==> cells[i] == None
    ensures GetAt(cells, version).None? ==> forall i :: 0 <= i <= version && i < |cells| ==> cells[i] == None
  {
    v := GetIsNewest(if version < |cells| then cells[..version + 1] else cells);
  }

  /** A write is invisible to every read below its version, also one between older and newer values. */
  lemma GetAtBelow<V>(cells: Versions<V>, version: nat, value: V, asked: nat)
    requires asked < version
    ensures GetAt(SetAt(cells, version, value), asked) == GetAt(cells, asked)
  {
    var after := SetAt(cells, version, value);
    if asked < |cells| {
      assert after[..asked + 1] == cells[..asked + 1];
    } else {
      assert after[..asked + 1] == cells + Absent(asked + 1 - |cells|);
      GetSkipsAbsent(cells, asked + 1 - |cells|);
    }
  }

  lemma {:induction false} GetSkipsAbsent<V>(cells: Versions<V>, count: nat)
    ensures Get(cells + Absent(count)) == Get(cells)
  {
    if count == 0 {
      assert cells + Absent(count) == cells;
    } else {
      var more := cells + Absent(count);
      assert more[..|more| - 1] == cells + Absent(count - 1);
      GetSkipsAbsent(cells, count - 1);
    }
  }

  lemma GetAtAbove<V>(cells: Versions<V>, asked: nat)
    requires |cells| <= asked + 1
    ensures GetAt(cells, asked) == Get(cells)
  {
    if asked < |cells| {
      assert cells[..asked + 1] == cells;
    }
  }
}
