/** The ambiguity gate: a device name the directory matched more than once
    (across groups) stops the whole run. Only the name matches are looked at;
    devices matched through a group are never ambiguous. */
module Duplicates {
  import opened Wrappers
  import opened UserApi

  /** The device names occurring in `ds`. */
  function NameSet(ds: seq<Device>): set<string>
  {
    set i | 0 <= i < |ds| :: ds[i].deviceName
  }

  /** The devices of `ds` named `name`, in order. */
  function Matches(ds: seq<Device>, name: string): seq<Device>
  {
    if ds == [] then []
    else Matches(ds[..|ds| - 1], name) + (if ds[|ds| - 1].deviceName == name then [ds[|ds| - 1]] else [])
  }

  /** The name of every device whose name already occurred earlier in `ds`,
      one entry per repeated occurrence, in order. */
  function Repeats(ds: seq<Device>): seq<string>
  {
    if ds == [] then []
    else
      var d := ds[|ds| - 1];
      Repeats(ds[..|ds| - 1]) + (if d.deviceName in NameSet(ds[..|ds| - 1]) then [d.deviceName] else [])
  }

  /** No two devices of `ds` share a name. */
  predicate DistinctNames(ds: seq<Device>) {
    forall i, j :: 0 <= i < j < |ds| ==> ds[i].deviceName != ds[j].deviceName
  }

  lemma NameSetSnoc(ds: seq<Device>, d: Device)
    ensures NameSet(ds + [d]) == NameSet(ds) + {d.deviceName}
  {
    var s := ds + [d];
    forall n | n in NameSet(ds) ensures n in NameSet(s) {
      var i :| 0 <= i < |ds| && ds[i].deviceName == n;
      assert s[i] == ds[i];
    }
    assert s[|ds|] == d;
  }

  lemma Init(ds: seq<Device>)
    requires ds != []
    ensures ds == ds[..|ds| - 1] + [ds[|ds| - 1]]
  {
  }

  lemma MatchesSnoc(ds: seq<Device>, d: Device, name: string)
    ensures Matches(ds + [d], name) == Matches(ds, name) + (if d.deviceName == name then [d] else [])
  {
    assert (ds + [d])[..|ds|] == ds;
  }

  /** Each repeated occurrence is counted once: there are as many repeats as
      devices beyond the number of distinct names. */
  lemma {:induction false} RepeatsCount(ds: seq<Device>)
    ensures |Repeats(ds)| == |ds| - |NameSet(ds)|
  {
    if ds != [] {
      var init, d := ds[..|ds| - 1], ds[|ds| - 1];
      RepeatsCount(init);
      Init(ds);
      NameSetSnoc(init, d);
    }
  }

  /** There is no repeat exactly when the names are pairwise distinct. */
  lemma {:induction false} RepeatsEmpty(ds: seq<Device>)
    ensures Repeats(ds) == [] <==> DistinctNames(ds)
  {
    if ds != [] {
      var init, d := ds[..|ds| - 1], ds[|ds| - 1];
      RepeatsEmpty(init);
      Init(ds);
      if d.deviceName in NameSet(init) {
        var i :| 0 <= i < |init| && init[i].deviceName == d.deviceName;
        assert ds[i].deviceName == ds[|ds| - 1].deviceName;
      } else if DistinctNames(init) {
        forall i, j | 0 <= i < j < |ds| ensures ds[i].deviceName != ds[j].deviceName {
          if j == |ds| - 1 {
            assert init[i].deviceName in NameSet(init);
          } else {
            assert init[i] == ds[i] && init[j] == ds[j];
          }
        }
      } else {
        var i, j :| 0 <= i < j < |init| && init[i].deviceName == init[j].deviceName;
        assert ds[i] == init[i] && ds[j] == init[j];
      }
    }
  }

  lemma {:induction false} MatchesCount(ds: seq<Device>, name: string)
    ensures |Matches(ds, name)| >= 1 <==> name in NameSet(ds)
    ensures forall k :: 0 <= k < |Matches(ds, name)| ==> Matches(ds, name)[k].deviceName == name
  {
    if ds != [] {
      var init, d := ds[..|ds| - 1], ds[|ds| - 1];
      MatchesCount(init, name);
      Init(ds);
      NameSetSnoc(init, d);
    }
  }

  /** A name is reported exactly when it matched at least two devices. */
  lemma {:induction false} RepeatsAreAmbiguous(ds: seq<Device>, name: string)
    ensures name in Repeats(ds) <==> |Matches(ds, name)| >= 2
  {
    if ds != [] {
      var init, d := ds[..|ds| - 1], ds[|ds| - 1];
      RepeatsAreAmbiguous(init, name);
      MatchesCount(init, name);
      Init(ds);
    }
  }

  lemma RepeatsSnoc(ds: seq<Device>, d: Device)
    ensures Repeats(ds + [d]) == Repeats(ds) + (if d.deviceName in NameSet(ds) then [d.deviceName] else [])
  {
    assert (ds + [d])[..|ds|] == ds;
  }

  /** One step of building the name map: adding `d` under its name keeps the
      map equal to the matches of every name. */
  lemma MapStep(ds: seq<Device>, d: Device, m: map<string, seq<Device>>, m': map<string, seq<Device>>)
    requires m.Keys == NameSet(ds)
    requires forall n :: n in m ==> m[n] == Matches(ds, n)
    requires m' == if d.deviceName in m then m[d.deviceName := m[d.deviceName] + [d]] else m[d.deviceName := [d]]
    ensures m'.Keys == NameSet(ds + [d])
    ensures forall n :: n in m' ==> m'[n] == Matches(ds + [d], n)
  {
    var name := d.deviceName;
    NameSetSnoc(ds, d);
    assert m'.Keys == m.Keys + {name};
    forall n | n in m' ensures m'[n] == Matches(ds + [d], n) {
      MatchesSnoc(ds, d, n);
      if n != name {
        assert m'[n] == m[n];
      } else if name in m {
        assert m'[n] == Matches(ds, n) + [d];
      } else {
        MatchesCount(ds, n);
        assert m'[n] == [d] && Matches(ds, n) == [];
      }
    }
  }

  /** `checkForDuplicates`: succeeds exactly when the name matches carry
      pairwise distinct names; otherwise the error counts the repeated
      occurrences, `duplicateNames` lists them and `nameMap` holds every match
      of every name, which is what gets printed. */
  method CheckForDuplicates(resp: DeviceResponse)
    returns (err: Option<Error>, duplicateNames: seq<string>, nameMap: map<string, seq<Device>>)
    ensures err == None <==> DistinctNames(resp.nameMatches)
    ensures err != None ==> err == Some(DuplicateDevices(|duplicateNames|))
    ensures duplicateNames == Repeats(resp.nameMatches)
    ensures |duplicateNames| == |resp.nameMatches| - |NameSet(resp.nameMatches)|
    ensures nameMap.Keys == NameSet(resp.nameMatches)
    ensures forall n :: n in nameMap ==> nameMap[n] == Matches(resp.nameMatches, n)
  {
    var ds := resp.nameMatches;
    nameMap := map[];
    duplicateNames := [];
    for i := 0 to |ds|
      invariant duplicateNames == Repeats(ds[..i])
      invariant nameMap.Keys == NameSet(ds[..i])
      invariant forall n :: n in nameMap ==> nameMap[n] == Matches(ds[..i], n)
    {
      var device := ds[i];
      ghost var prefix, oldMap := ds[..i], nameMap;
      assert ds[..i + 1] == prefix + [device];
      RepeatsSnoc(prefix, device);
      if device.deviceName !in nameMap {
        nameMap := nameMap[device.deviceName := [device]];
      } else {
        nameMap := nameMap[device.deviceName := nameMap[device.deviceName] + [device]];
        duplicateNames := duplicateNames + [device.deviceName];
      }
      MapStep(prefix, device, oldMap, nameMap);
    }
    assert ds[..|ds|] == ds;
    RepeatsCount(ds);
    RepeatsEmpty(ds);
    if |duplicateNames| > 0 {
      err := Some(DuplicateDevices(|duplicateNames|));
    } else {
      err := None;
    }
  }
}
