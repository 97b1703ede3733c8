/** Salt minion ids and the command line handed to `sudo`. */
module Salt {
  import opened Wrappers
  import opened GoStrings
  import opened UserApi

  /** Every minion id this wrapper produces starts with this. */
  const IdBase := "pi"

  /** The id prefix for a salt prefix: "pi", or "pi-" followed by the prefix.
      The server URL takes no part in it. */
  function GetSaltPrefix(serverURL: string, saltPrefix: string): (p: string)
    ensures |p| >= |IdBase| && p[..|IdBase|] == IdBase
    ensures p == IdBase <==> saltPrefix == ""
    ensures saltPrefix != "" ==> p[|IdBase|..] == "-" + saltPrefix
  {
    var idPrefix := "pi";
    if saltPrefix != "" then idPrefix + "-" + saltPrefix else idPrefix
  }

  /** The minion id of one device. */
  function SaltName(idPrefix: string, d: Device): string
  {
    idPrefix + "-" + Itoa(d.saltId)
  }

  /** The ids of a list of devices, in the same order. */
  function SaltNames(idPrefix: string, devices: seq<Device>): seq<string>
  {
    seq(|devices|, i requires 0 <= i < |devices| => SaltName(idPrefix, devices[i]))
  }

  /** A minion id is decodable: it is the id prefix, a dash, and the decimal
      salt id of the device. */
  lemma SaltNameDecodes(idPrefix: string, d: Device)
    ensures var s := SaltName(idPrefix, d); var n := s[|idPrefix| + 1..];
      s[..|idPrefix|] == idPrefix && s[|idPrefix|] == '-'
      && |n| >= 1 && (IsDigits(n) || (n[0] == '-' && IsDigits(n[1..]))) && Atoi(n) == d.saltId
  {
    var s := SaltName(idPrefix, d);
    assert s[|idPrefix| + 1..] == Itoa(d.saltId);
    ItoaRoundTrip(d.saltId);
  }

  /** The space separated list of minion ids of `devices`, in order: no leading
      or trailing space, empty for no devices, and when the prefix holds no space
      splitting it on spaces gives back exactly the ids. */
  method SaltDeviceCommand(serverURL: string, devices: seq<Device>, saltPrefix: string) returns (ids: string)
    ensures ids == Join(SaltNames(GetSaltPrefix(serverURL, saltPrefix), devices), ' ')
    ensures ids == "" <==> devices == []
    ensures ids != "" ==> ids[0] == 'p' && ids[|ids| - 1] != ' '
    ensures devices != [] && ' ' !in saltPrefix ==>
      Split(ids, ' ') == SaltNames(GetSaltPrefix(serverURL, saltPrefix), devices)
  {
    var saltDevices := "";
    var idPrefix := GetSaltPrefix(serverURL, saltPrefix);
    var spacer := "";
    for i := 0 to |devices|
      invariant saltDevices == Join(SaltNames(idPrefix, devices[..i]), ' ')
      invariant spacer == if i == 0 then "" else " "
    {
      SaltNamesSnoc(idPrefix, devices, i);
      JoinSnoc(SaltNames(idPrefix, devices[..i]), SaltName(idPrefix, devices[i]), ' ');
      AppendChunk(saltDevices, spacer, idPrefix, Itoa(devices[i].saltId));
      saltDevices := saltDevices + spacer + idPrefix + "-" + Itoa(devices[i].saltId);
      spacer := " ";
    }
    assert devices[..|devices|] == devices;
    ids := saltDevices;
    if devices != [] {
      assert ' ' !in saltPrefix ==> ' ' !in idPrefix;
      SaltListShape(idPrefix, devices);
    }
  }

  lemma AppendChunk(s: string, spacer: string, idPrefix: string, n: string)
    ensures s + spacer + idPrefix + "-" + n == s + spacer + (idPrefix + "-" + n)
  {
  }

  lemma SaltNamesSnoc(idPrefix: string, devices: seq<Device>, i: nat)
    requires i < |devices|
    ensures SaltNames(idPrefix, devices[..i + 1]) == SaltNames(idPrefix, devices[..i]) + [SaltName(idPrefix, devices[i])]
  {
  }

  /** Shape of one id: it starts like its prefix, ends in a digit, and holds a
      space only if its prefix does. */
  lemma SaltNameShape(idPrefix: string, d: Device)
    requires |idPrefix| >= 1
    ensures var s := SaltName(idPrefix, d);
      s[0] == idPrefix[0] && '0' <= s[|s| - 1] <= '9' && (' ' !in idPrefix ==> ' ' !in s)
  {
    var n := Itoa(d.saltId);
    var s := SaltName(idPrefix, d);
    assert s == idPrefix + ("-" + n);
    assert s[|s| - 1] == n[|n| - 1];
  }

  /** Shape of a non-empty id list: it starts with "p", does not end in a space,
      and splits back into its ids when the prefix holds no space. */
  lemma SaltListShape(idPrefix: string, devices: seq<Device>)
    requires devices != [] && |idPrefix| >= 1 && idPrefix[0] == 'p'
    ensures var j := Join(SaltNames(idPrefix, devices), ' ');
      j != "" && j[0] == 'p' && j[|j| - 1] != ' '
      && (' ' !in idPrefix ==> Split(j, ' ') == SaltNames(idPrefix, devices))
  {
    var names := SaltNames(idPrefix, devices);
    forall k | 0 <= k < |names|
      ensures names[k] != "" && names[k][0] == 'p' && names[k][|names[k]| - 1] != ' '
      ensures ' ' !in idPrefix ==> ' ' !in names[k]
    {
      SaltNameShape(idPrefix, devices[k]);
    }
    JoinEnds(names, ' ');
    if ' ' !in idPrefix {
      SplitJoin(names, ' ');
    }
  }

  /** `runSalt`: the arguments `sudo` receives. */
  function SudoArgs(commands: seq<string>): seq<string>
  {
    ["salt"] + commands
  }

  /** `runSaltForDevices` up to the process launch: no devices is an error and
      nothing is run; otherwise sudo runs salt with "-L" exactly when there is
      more than one device, then the id list, then the user's commands. */
  method RunSaltForDevices(serverURL: string, devices: seq<Device>, argCommands: seq<string>, saltPrefix: string)
    returns (r: Result<seq<string>, Error>)
    ensures r.Failure? <==> devices == []
    ensures r.Failure? ==> r.error == NoValidDevices
    ensures r.Success? ==> (r.value ==
      ["salt"] + (if |devices| > 1 then ["-L"] else [])
      + [Join(SaltNames(GetSaltPrefix(serverURL, saltPrefix), devices), ' ')] + argCommands)
    ensures r.Success? ==> r.value[0] == "salt" && (r.value[1] == "-L" <==> |devices| > 1)
    ensures r.Success? ==> r.value[|r.value| - |argCommands|..] == argCommands
  {
    if |devices| == 0 {
      return Failure(NoValidDevices);
    }
    var ids := SaltDeviceCommand(serverURL, devices, saltPrefix);
    ghost var flag: seq<string> := if |devices| > 1 then ["-L"] else [];
    var commands: seq<string> := [];
    if |devices| > 1 {
      commands := commands + ["-L"];
    }
    assert commands == flag;
    commands := commands + [ids];
    commands := commands + argCommands;
    r := Success(SudoArgs(commands));
    AppendAssoc(["salt"], flag + [ids], argCommands);
    AppendAssoc(["salt"], flag, [ids]);
    assert r.value[1] == (flag + [ids])[0];
    assert ids[0] == 'p' && "-L"[0] == '-';
  }
}
