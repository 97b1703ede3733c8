/** The DEVICEINFO argument: a comma separated list of terms, each a device
    name, a `group:device` pair or a whole `group:`. */
module Query {
  import opened Wrappers
  import opened GoStrings
  import opened UserApi

  /** What one term of the query denotes. */
  datatype Entry = DeviceEntry(device: Device) | GroupEntry(group: string)

  /** The terms of a raw argument: the trimmed text split at every comma. */
  function Terms(raw: string): (ts: seq<string>)
    ensures |ts| >= 1
  {
    Split(TrimSpace(raw), ',')
  }

  /** Classification of one term by its first colon. */
  function Classify(term: string): Entry
  {
    var pos := IndexOf(term, ':');
    if pos == 0 then DeviceEntry(Device("", term[1..], 0))
    else if pos >= 0 then
      if |term| == pos + 1 then GroupEntry(term[..pos])
      else DeviceEntry(Device(term[..pos], term[pos + 1..], 0))
    else DeviceEntry(Device("", term, 0))
  }

  /** The four cases of a term, stated by where its first colon is. */
  lemma ClassifyCases(term: string)
    ensures ':' !in term ==> Classify(term) == DeviceEntry(Device("", term, 0))
    ensures |term| > 0 && term[0] == ':' ==> Classify(term) == DeviceEntry(Device("", term[1..], 0))
    ensures forall p :: 0 < p < |term| && term[p] == ':' && ':' !in term[..p] ==>
      if p == |term| - 1 then Classify(term) == GroupEntry(term[..p])
      else Classify(term) == DeviceEntry(Device(term[..p], term[p + 1..], 0))
  {
  }

  /** The entries a term can denote: a device with an empty group (any name), a
      device with a colon-free group and a non-empty name, or a non-empty
      colon-free group. */
  predicate WellFormed(e: Entry) {
    match e
    case DeviceEntry(d) => d.saltId == 0 && (d.groupName == "" || (':' !in d.groupName && d.deviceName != ""))
    case GroupEntry(g) => g != "" && ':' !in g
  }

  /** A canonical term for an entry, the way a user would write it. */
  function Render(e: Entry): string
    requires WellFormed(e)
  {
    match e
    case DeviceEntry(d) => d.groupName + ":" + d.deviceName
    case GroupEntry(g) => g + ":"
  }

  /** Every term denotes a well-formed entry. */
  lemma ClassifyWellFormed(term: string)
    ensures WellFormed(Classify(term))
  {
    var pos := IndexOf(term, ':');
    if pos > 0 {
      assert term[..pos] != "";
    }
  }

  /** Every well-formed entry is denoted by its rendering. */
  lemma ClassifyRender(e: Entry)
    requires WellFormed(e)
    ensures Classify(Render(e)) == e
  {
    var t := Render(e);
    match e
    case DeviceEntry(d) =>
      var p := |d.groupName|;
      assert t[p] == ':' && t[..p] == d.groupName && t[p + 1..] == d.deviceName;
      if p == 0 {
        assert t[0] == ':';
      } else {
        assert ':' !in t[..p];
      }
    case GroupEntry(g) =>
      assert t[|g|] == ':' && t[..|g|] == g;
  }

  /** The devices a list of terms yields, in order. */
  function ParsedDevices(ts: seq<string>): seq<Device>
  {
    if ts == [] then []
    else
      var e := Classify(ts[|ts| - 1]);
      ParsedDevices(ts[..|ts| - 1]) + (if e.DeviceEntry? then [e.device] else [])
  }

  /** The groups a list of terms yields, in order. */
  function ParsedGroups(ts: seq<string>): seq<string>
  {
    if ts == [] then []
    else
      var e := Classify(ts[|ts| - 1]);
      ParsedGroups(ts[..|ts| - 1]) + (if e.GroupEntry? then [e.group] else [])
  }

  /** One entry per term: no term is dropped, none counted twice. */
  lemma {:induction false} ParseCount(ts: seq<string>)
    ensures |ParsedDevices(ts)| + |ParsedGroups(ts)| == |ts|
  {
    if ts != [] {
      ParseCount(ts[..|ts| - 1]);
    }
  }

  /** Parsing keeps the order of the terms: the entries of a concatenation are
      the entries of its parts, one after the other. */
  lemma {:induction false} ParseAppend(a: seq<string>, b: seq<string>)
    ensures ParsedDevices(a + b) == ParsedDevices(a) + ParsedDevices(b)
    ensures ParsedGroups(a + b) == ParsedGroups(a) + ParsedGroups(b)
  {
    if b == [] {
      assert a + b == a;
    } else {
      var b' := b[..|b| - 1];
      ParseAppend(a, b');
      assert (a + b)[..|a + b| - 1] == a + b';
      assert (a + b)[|a + b| - 1] == b[|b| - 1];
      var e := Classify(b[|b| - 1]);
      AppendAssoc(ParsedDevices(a), ParsedDevices(b'), if e.DeviceEntry? then [e.device] else []);
      AppendAssoc(ParsedGroups(a), ParsedGroups(b'), if e.GroupEntry? then [e.group] else []);
    }
  }

  lemma ParseSnoc(ts: seq<string>, t: string)
    ensures ParsedDevices(ts + [t]) == ParsedDevices(ts) + (if Classify(t).DeviceEntry? then [Classify(t).device] else [])
    ensures ParsedGroups(ts + [t]) == ParsedGroups(ts) + (if Classify(t).GroupEntry? then [Classify(t).group] else [])
  {
    assert (ts + [t])[..|ts|] == ts;
  }

  /** The term count of a query is one more than its number of commas, so the
      trimmed argument yields exactly that many entries; in particular at least one. */
  lemma QueryEntries(raw: string)
    ensures |ParsedDevices(Terms(raw))| + |ParsedGroups(Terms(raw))| == Count(TrimSpace(raw), ',') + 1
  {
    SplitPieces(TrimSpace(raw), ',');
    ParseCount(Terms(raw));
  }

  /** The parsed form of the DEVICEINFO argument. A query that was never
      parsed keeps Go's zero value: no devices, no groups, no raw text. */
  class DeviceQuery {
    var devices: seq<Device>
    var groups: seq<string>
    var rawArg: string

    constructor ()
      ensures devices == [] && groups == [] && rawArg == ""
    {
      devices := [];
      groups := [];
      rawArg := "";
    }

    /** Whether any text was given for the query (not trimmed). */
    predicate RawQuery()
      reads this
    {
      |rawArg| > 0
    }

    /** Whether the query has any device or group entry. */
    predicate HasValues()
      reads this
    {
      |devices| > 0 || |groups| > 0
    }

    /** Parses `b`, appending one device or group per term. It never fails. */
    method UnmarshalText(b: string) returns (err: Option<Error>)
      modifies this
      ensures err == None && rawArg == b
      ensures devices == old(devices) + ParsedDevices(Terms(b))
      ensures groups == old(groups) + ParsedGroups(Terms(b))
      ensures RawQuery() <==> |b| > 0
      ensures HasValues()
    {
      rawArg := b;
      var terms := Terms(b);
      ghost var devices0, groups0 := devices, groups;
      var i := 0;
      while i < |terms|
        invariant 0 <= i <= |terms| && rawArg == b
        invariant devices == devices0 + ParsedDevices(terms[..i])
        invariant groups == groups0 + ParsedGroups(terms[..i])
      {
        var devInfo := terms[i];
        ghost var e := Classify(devInfo);
        ghost var added := if e.DeviceEntry? then [e.device] else [];
        ghost var addedGroups := if e.GroupEntry? then [e.group] else [];
        AppendAssoc(devices0, ParsedDevices(terms[..i]), added);
        AppendAssoc(groups0, ParsedGroups(terms[..i]), addedGroups);
        assert terms[..i + 1] == terms[..i] + [devInfo];
        ParseSnoc(terms[..i], devInfo);
        var pos := IndexOf(devInfo, ':');
        if pos == 0 {
          devices := devices + [Device("", devInfo[1..], 0)];
        } else if pos >= 0 {
          if |devInfo| == pos + 1 {
            groups := groups + [devInfo[..pos]];
          } else {
            devices := devices + [Device(devInfo[..pos], devInfo[pos + 1..], 0)];
          }
        } else {
          devices := devices + [Device("", devInfo, 0)];
        }
        i := i + 1;
      }
      assert terms[..i] == terms;
      ParseCount(terms);
      err := None;
    }
  }
}
