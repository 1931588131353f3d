/** The benchmark table: the `"devices"` records of the benchmark JSON folded into the
    name-to-score dictionary, one assignment `bench_dict[name] = int(score)` per record. */
module Benchmarks {

  /** One entry of the `"devices"` array, its score already converted by `int(...)`. */
  datatype Device = Device(name: string, score: int)

  /** The table after assigning each record, in order, into `table`. */
  function Load(table: map<string, int>, devices: seq<Device>): map<string, int>
  {
    if devices == [] then table
    else
      var last := devices[|devices| - 1];
      Load(table, devices[..|devices| - 1])[last.name := last.score]
  }

  /** Index `i` holds the last record named `name`. */
  ghost predicate LastRecord(devices: seq<Device>, name: string, i: int)
  {
    0 <= i < |devices| && devices[i].name == name
    && forall j | i < j < |devices| :: devices[j].name != name
  }

  /** Some record is named `name`. */
  ghost predicate Named(devices: seq<Device>, name: string)
  {
    exists i | 0 <= i < |devices| :: devices[i].name == name
  }

  /** Every name in the records becomes a key; the other keys keep their old score; for a
      name that occurs several times, the last record wins. */
  lemma LoadLastWins(table: map<string, int>, devices: seq<Device>, name: string)
    ensures name in Load(table, devices) <==> name in table || Named(devices, name)
    ensures !Named(devices, name) && name in table ==> Load(table, devices)[name] == table[name]
    ensures forall i | LastRecord(devices, name, i) :: Load(table, devices)[name] == devices[i].score
  {
    LoadHasKey(table, devices, name);
    if !Named(devices, name) && name in table {
      LoadKeepsOthers(table, devices, name);
    }
    forall i | LastRecord(devices, name, i)
      ensures Load(table, devices)[name] == devices[i].score
    {
      LoadLastRecord(table, devices, name, i);
    }
  }

  lemma {:induction false} LoadHasKey(table: map<string, int>, devices: seq<Device>, name: string)
    ensures name in Load(table, devices) <==> name in table || Named(devices, name)
  {
    if devices != [] {
      var init := devices[..|devices| - 1];
      LoadHasKey(table, init, name);
      assert Named(init, name) ==> Named(devices, name) by {
        if Named(init, name) {
          var i :| 0 <= i < |init| && init[i].name == name;
          assert devices[i].name == name;
        }
      }
      if devices[|devices| - 1].name != name {
        assert Named(devices, name) ==> Named(init, name) by {
          if Named(devices, name) {
            var i :| 0 <= i < |devices| && devices[i].name == name;
            assert init[i].name == name;
          }
        }
      } else {
        assert Named(devices, name) by { assert devices[|devices| - 1].name == name; }
      }
    }
  }

  lemma {:induction false} LoadKeepsOthers(table: map<string, int>, devices: seq<Device>, name: string)
    requires !Named(devices, name) && name in table
    ensures name in Load(table, devices) && Load(table, devices)[name] == table[name]
  {
    if devices != [] {
      var init := devices[..|devices| - 1];
      assert forall i | 0 <= i < |init| :: init[i] == devices[i];
      assert devices[|devices| - 1].name != name;
      LoadKeepsOthers(table, init, name);
    }
  }

  lemma {:induction false} LoadLastRecord(table: map<string, int>, devices: seq<Device>, name: string, i: int)
    requires LastRecord(devices, name, i)
    ensures name in Load(table, devices) && Load(table, devices)[name] == devices[i].score
  {
    var init := devices[..|devices| - 1];
    if i < |devices| - 1 {
      assert LastRecord(init, name, i);
      LoadLastRecord(table, init, name, i);
    }
  }

  /** The keys of the loaded table: the old keys and every record's name. */
  lemma LoadKeys(table: map<string, int>, devices: seq<Device>)
    ensures Load(table, devices).Keys == table.Keys + set d | d in devices :: d.name
  {
    forall name | true
      ensures name in Load(table, devices) <==> name in table || name in (set d | d in devices :: d.name)
    {
      LoadLastWins(table, devices, name);
      if name in (set d | d in devices :: d.name) {
        var d :| d in devices && d.name == name;
        var i :| 0 <= i < |devices| && devices[i] == d;
      }
    }
  }

  /** Loading the same records again changes nothing: the table built by the first call is
      what the second call leaves, which matters because the program loads twice. */
  lemma ReloadUnchanged(table: map<string, int>, devices: seq<Device>)
    ensures Load(Load(table, devices), devices) == Load(table, devices)
  {
    var once := Load(table, devices);
    var twice := Load(once, devices);
    forall name | true
      ensures name in twice <==> name in once
      ensures name in once ==> twice[name] == once[name]
    {
      LoadLastWins(table, devices, name);
      LoadLastWins(once, devices, name);
      if Named(devices, name) {
        var i := LastIndex(devices, name);
        assert LastRecord(devices, name, i);
      }
    }
  }

  /** Loading never removes a key, so a non-empty table stays non-empty. */
  lemma LoadNonEmpty(table: map<string, int>, devices: seq<Device>)
    requires table != map[]
    ensures Load(table, devices) != map[]
  {
    var k :| k in table;
    LoadHasKey(table, devices, k);
  }

  /** The index of the last record named `name`. */
  lemma LastIndex(devices: seq<Device>, name: string) returns (i: nat)
    requires Named(devices, name)
    ensures LastRecord(devices, name, i)
  {
    i := |devices| - 1;
    while devices[i].name != name
      invariant 0 <= i < |devices|
      invariant forall j | i < j < |devices| :: devices[j].name != name
      invariant exists k | 0 <= k <= i :: devices[k].name == name
      decreases i
    {
      i := i - 1;
    }
  }
}
