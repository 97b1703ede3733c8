/** The parsed command line and `apiFromArgs`: which server, salt prefix, user
    and token a run uses. */
module Session {
  import opened Wrappers
  import opened UserApi
  import opened Query

  /** `testPrefix`, the salt prefix of the test server. */
  const TestPrefix := "test"

  /** The command line as go-arg fills it in. */
  datatype Args = Args(
    deviceInfo: DeviceQuery,
    commands: seq<string>,
    show: bool,
    server: string,
    testServer: bool,
    liveServer: bool,
    testPrefix: bool,
    user: string,
    debug: bool,
    verbose: bool)

  /** The live and test API hosts userapi has built in. */
  datatype Hosts = Hosts(live: string, test: string)

  /** What `userapi.New` is given. */
  datatype Api = Api(serverURL: string, username: string, token: string)

  function Https(host: string): string
  {
    "https://" + host
  }

  /** Neither --live nor --test chose the server, but --server named an alias. */
  predicate AliasChosen(args: Args)
  {
    !args.liveServer && !args.testServer && args.server != ""
  }

  /** The precedence `apiFromArgs` applies, stated fact by fact for a result
      `r` and a saved configuration `saved`. */
  predicate Precedence(args: Args, config: Config, hosts: Hosts, typedName: string, tokens: map<string, string>,
                       r: Result<(Api, string), Error>, saved: Option<Config>)
  {
    // an unknown alias is the only error, and nothing is asked or saved then
    (r.Failure? <==> AliasChosen(args) && args.server !in config.servers)
    && (r.Failure? ==> r.error == ServerNotFound(args.server) && saved == None)
    && (r.Success? ==>
      var (api, saltPrefix) := r.value;
      // server: --live, then --test, then the alias, then the configured URL, then the live host
      && (args.liveServer ==> api.serverURL == Https(hosts.live))
      && (!args.liveServer && args.testServer ==> api.serverURL == Https(hosts.test))
      && (AliasChosen(args) ==> api.serverURL == config.servers[args.server].url)
      && (!args.liveServer && !args.testServer && args.server == "" ==>
            api.serverURL == if config.serverURL != "" then config.serverURL else Https(hosts.live))
      // salt prefix: -t or --test force "test", else the alias's, else none
      && (args.testPrefix || (!args.liveServer && args.testServer) ==> saltPrefix == TestPrefix)
      && (!args.testPrefix && AliasChosen(args) ==> saltPrefix == config.servers[args.server].saltPrefix)
      && (!args.testPrefix && (args.liveServer || !args.testServer) && !AliasChosen(args) ==> saltPrefix == "")
      // user: --user, then the alias's, then the configured one, then the prompt
      && (args.user != "" ==> api.username == args.user)
      && (args.user == "" && AliasChosen(args) && config.servers[args.server].userName != "" ==>
            api.username == config.servers[args.server].userName)
      && (args.user == "" && (!AliasChosen(args) || config.servers[args.server].userName == "") ==>
            api.username == if config.userName != "" then config.userName else typedName)
      // the configuration is saved only when the prompt was used
      && (saved.Some? <==>
            (args.user == "" && (!AliasChosen(args) || config.servers[args.server].userName == "")
             && config.userName == ""))
      && (saved.Some? ==> saved.value == config.(userName := typedName))
      // the token is the user's saved one, if there is one
      && api.token == (if api.username in tokens then tokens[api.username] else ""))
  }

  /** The API, salt prefix and saved configuration of a command line, decided
      in the order `apiFromArgs` decides them. */
  function Resolve(args: Args, config: Config, hosts: Hosts, typedName: string, tokens: map<string, string>)
    : (Result<(Api, string), Error>, Option<Config>)
  {
    if AliasChosen(args) && args.server !in config.servers then (Failure(ServerNotFound(args.server)), None)
    else
      var alias := if AliasChosen(args) then Some(config.servers[args.server]) else None;
      var serverURL :=
        if args.liveServer then Https(hosts.live)
        else if args.testServer then Https(hosts.test)
        else if alias.Some? then alias.value.url
        else if config.serverURL != "" then config.serverURL
        else Https(hosts.live);
      var saltPrefix :=
        if args.testPrefix || (!args.liveServer && args.testServer) then TestPrefix
        else if alias.Some? then alias.value.saltPrefix
        else "";
      var prompted := args.user == "" && (alias.None? || alias.value.userName == "") && config.userName == "";
      var username :=
        if args.user != "" then args.user
        else if alias.Some? && alias.value.userName != "" then alias.value.userName
        else if config.userName != "" then config.userName
        else typedName;
      var token := if username in tokens then tokens[username] else "";
      (Success((Api(serverURL, username, token), saltPrefix)),
       if prompted then Some(config.(userName := typedName)) else None)
  }

  /** The resolution follows the precedence. */
  lemma ResolveFollowsPrecedence(args: Args, config: Config, hosts: Hosts, typedName: string, tokens: map<string, string>)
    ensures var (r, saved) := Resolve(args, config, hosts, typedName, tokens);
      Precedence(args, config, hosts, typedName, tokens, r, saved)
  {
  }

  /** `apiFromArgs`. `config` is what `userapi.NewConfig` loaded,
      `typedName` what the username prompt reads, and `tokens` the saved token
      of each user. Besides the API and the salt prefix, reports the
      configuration written back, if any. */
  method ApiFromArgs(args: Args, config: Config, hosts: Hosts, typedName: string, tokens: map<string, string>)
    returns (r: Result<(Api, string), Error>, saved: Option<Config>)
    ensures (r, saved) == Resolve(args, config, hosts, typedName, tokens)
    ensures Precedence(args, config, hosts, typedName, tokens, r, saved)
  {
    var serverURL := config.serverURL;
    var saltPrefix, username := "", "";
    saved := None;
    if args.liveServer {
      serverURL := Https(hosts.live);
    } else if args.testServer {
      serverURL := Https(hosts.test);
      saltPrefix := TestPrefix;
    } else if args.server != "" {
      if args.server in config.servers {
        var server := config.servers[args.server];
        serverURL := server.url;
        saltPrefix := server.saltPrefix;
        username := server.userName;
      } else {
        return Failure(ServerNotFound(args.server)), None;
      }
    } else if serverURL == "" {
      serverURL := Https(hosts.live);
    }

    if args.testPrefix {
      saltPrefix := TestPrefix;
    }
    var conf := config;
    if args.user != "" {
      username := args.user;
    } else if username == "" {
      if conf.userName == "" {
        // getMissingConfig, then conf.Save
        conf := conf.(userName := typedName);
        saved := Some(conf);
      }
      username := conf.userName;
    }

    var token := if username in tokens then tokens[username] else "";
    return Success((Api(serverURL, username, token), saltPrefix)), saved;
  }
}
