/** The values exchanged with the `userapi` package and the errors of a run.
    The package itself (HTTP calls, config and token files) is not part of this
    model; only the shape of what it returns is. */
module UserApi {
  import GoStrings

  /** A device as the directory knows it. A parsed query leaves `saltId` at
      Go's zero value, 0. */
  datatype Device = Device(groupName: string, deviceName: string, saltId: int)

  /** What `TranslateNames` returns: the devices matched through a group and the
      devices matched by (group:)name. */
  datatype DeviceResponse = DeviceResponse(devices: seq<Device>, nameMatches: seq<Device>)

  /** One server alias of the config file. */
  datatype ServerInfo = ServerInfo(url: string, saltPrefix: string, userName: string)

  /** The user's config file: default user, default server and the aliases. */
  datatype Config = Config(userName: string, serverURL: string, servers: map<string, ServerInfo>)

  /** Every error a run can end with. `Authentication` is an error that
      `userapi.IsAuthenticationError` accepts; `External` is any other error
      coming from the API, the terminal or the salt process. */
  datatype Error =
    | MissingCommands
    | ServerNotFound(alias: string)
    | MaxPasswordAttempts
    | NoValidDevices
    | DuplicateDevices(count: nat)
    | Authentication(message: string)
    | External(message: string)

  predicate IsAuthenticationError(e: Error) {
    e.Authentication?
  }

  /** The text of each error as the wrapper reports it. */
  function Message(e: Error): string {
    match e
    case MissingCommands => "Commands/deviceinfo must be specified"
    case ServerNotFound(alias) => "Cannot find " + alias + " server info in config"
    case MaxPasswordAttempts => "Max Password Attempts"
    case NoValidDevices => "No valid devices found"
    case DuplicateDevices(n) =>
      "DeviceName Query found " + GoStrings.Itoa(n) + " Duplicate Device please specify group:devicename\n"
    case Authentication(m) => m
    case External(m) => m
  }

  /** The unknown-server message names the alias right after "Cannot find ". */
  lemma ServerNotFoundMessage(alias: string)
    ensures var m := Message(ServerNotFound(alias)); var k := |"Cannot find "|;
      |m| > k + |alias| && m[k..k + |alias|] == alias
  {
  }

  /** The duplicate message carries the count right after
      "DeviceName Query found ", in decimal and readable back. */
  lemma DuplicateMessage(n: nat)
    ensures var m := Message(DuplicateDevices(n)); var k := |"DeviceName Query found "|;
      var digits := GoStrings.Itoa(n);
      |m| > k + |digits| && m[k..k + |digits|] == digits && GoStrings.Atoi(digits) == n
  {
    GoStrings.ItoaRoundTrip(n);
    var digits := GoStrings.Itoa(n);
    var m := Message(DuplicateDevices(n));
    assert m == "DeviceName Query found " + digits + " Duplicate Device please specify group:devicename\n";
  }
}
