/** `runMain`: what a csalt run does, from the parsed command line to the salt
    invocation. The API server, the terminal and the salt process are given
    as an `Env` of answers; the run reports what it did as a `Trace`. */
module Dispatch {
  import opened Wrappers
  import opened GoStrings
  import opened UserApi
  import opened Query
  import opened Salt
  import opened Duplicates
  import opened Session
  import opened Auth

  /** The answers of the outside world, in the order a run asks for them. */
  datatype Env = Env(
    hasToken: bool,                                   // api.HasToken()
    authenticated: bool,                              // api.Authenticated() before any password
    passwords: seq<Attempt>,                          // the password prompts, in order
    firstSave: Option<Error>,                         // first api.SaveTemporaryToken
    secondSave: Option<Error>,                        // second api.SaveTemporaryToken
    firstTranslation: Result<DeviceResponse, Error>,  // first api.TranslateNames
    secondTranslation: Result<DeviceResponse, Error>, // second api.TranslateNames
    saltResult: Option<Error>)                        // what running sudo salt returns

  /** What a run did: the arguments sudo ran salt with, the number of
      translation requests, passwords read and token saves, the names shown by
      --show, the server and salt prefix chosen and the configuration saved. */
  datatype Trace = Trace(
    salt: Option<seq<string>>,
    translations: nat,
    passwordsRead: nat,
    tokenSaves: nat,
    shown: Option<string>,
    session: Option<(Api, string)>,
    savedConfig: Option<Config>)

  const Quiet := Trace(None, 0, 0, 0, None, None, None)

  /** The run asks the API to translate the device query. */
  predicate Translates(args: Args)
    reads args.deviceInfo
  {
    if |args.commands| == 0 then args.deviceInfo.RawQuery() && args.show
    else args.deviceInfo.HasValues()
  }

  /** The translation the run went on with. */
  function Translation(env: Env, t: Trace): Result<DeviceResponse, Error>
  {
    if t.translations == 2 then env.secondTranslation else env.firstTranslation
  }

  /** The devices a successful translation targets: devices, then name matches. */
  function Targets(resp: DeviceResponse): seq<Device>
  {
    resp.devices + resp.nameMatches
  }

  /** The salt ids of the targets under the chosen server and prefix. */
  function TargetIds(session: (Api, string), resp: DeviceResponse): string
  {
    Join(SaltNames(GetSaltPrefix(session.0.serverURL, session.1), Targets(resp)), ' ')
  }

  /** The translation was made, succeeded and named no device ambiguously. */
  predicate Resolved(env: Env, t: Trace)
  {
    t.translations >= 1 && Translation(env, t).Success?
    && DistinctNames(Translation(env, t).value.nameMatches)
  }

  /** The first authentication error of the translation. */
  predicate AuthRejected(r: Result<DeviceResponse, Error>)
  {
    r.Failure? && IsAuthenticationError(r.error)
  }

  /** The authentication before the first translation: none with a token. */
  function FirstAuth(env: Env): (o: AuthResult)
    ensures o.used <= |env.passwords|
  {
    if env.hasToken then AuthResult(None, 0, false, env.authenticated)
    else AuthOutcome(env.authenticated, env.passwords, env.firstSave)
  }

  /** The authentication after the first translation was rejected: it reads
      the passwords the first one left, and its token save is the next one. */
  function ReAuth(env: Env): AuthResult
  {
    var first := FirstAuth(env);
    AuthOutcome(first.nowAuthenticated, env.passwords[first.used..],
                if first.saved then env.secondSave else env.firstSave)
  }

  /** The outcome of the translation stage: the translation, or the error that
      stopped the stage, with the number of translations, passwords read and
      token saves. */
  datatype Translated = Translated(result: Result<DeviceResponse, Error>, translations: nat, passwordsRead: nat, tokenSaves: nat)

  /** The translation stage, step by step. */
  function TranslateOutcome(env: Env): Translated
  {
    var first := FirstAuth(env);
    var saves := if first.saved then 1 else 0;
    if first.err.Some? then Translated(Failure(first.err.value), 0, first.used, saves)
    else if !AuthRejected(env.firstTranslation) then Translated(env.firstTranslation, 1, first.used, saves)
    else
      var again := ReAuth(env);
      var used := first.used + again.used;
      var saves' := saves + if again.saved then 1 else 0;
      if again.err.Some? then Translated(Failure(again.err.value), 1, used, saves')
      else Translated(env.secondTranslation, 2, used, saves')
  }

  /** The cases of the translation stage: a failed first authentication ends
      it with its error before any translation; the second translation happens
      exactly after an authentication error and a successful
      re-authentication, and a failed re-authentication ends the stage with
      its error. */
  lemma TranslateCases(env: Env)
    ensures var o := TranslateOutcome(env);
      && (o.translations == 0 <==> FirstAuth(env).err.Some?)
      && (o.translations == 0 ==> !env.hasToken && o.result == Failure(FirstAuth(env).err.value))
      && (o.translations == 1 && !AuthRejected(env.firstTranslation) ==> o.result == env.firstTranslation)
      && (o.translations == 1 && AuthRejected(env.firstTranslation) ==>
            ReAuth(env).err.Some? && o.result == Failure(ReAuth(env).err.value))
      && (o.translations == 2 <==>
            FirstAuth(env).err == None && AuthRejected(env.firstTranslation) && ReAuth(env).err == None)
      && (o.translations == 2 ==> o.result == env.secondTranslation)
  {
  }

  /** At most three passwords are read in the whole stage: an accepted
      password authenticates the user, so a re-authentication prompts only
      when the first translation ran on a saved token. At most two tokens are
      saved. */
  lemma {:induction false} TranslateBounds(env: Env)
    ensures var o := TranslateOutcome(env);
      o.passwordsRead <= MaxAttempts && o.passwordsRead <= |env.passwords| && o.tokenSaves <= 2
      && o.translations <= 2
  {
    var first := FirstAuth(env);
    if !env.hasToken && first.err == None {
      assert first.nowAuthenticated;
      assert ReAuth(env).used == 0;
    }
  }

  /** Three rejected passwords end the stage with "Max Password Attempts":
      before any translation when there is no token, and at the
      re-authentication when the saved token was refused. */
  lemma ThreeRejectionsStop(env: Env)
    requires !env.authenticated && RejectedUpTo(env.passwords, MaxAttempts)
    ensures !env.hasToken ==> TranslateOutcome(env) == Translated(Failure(MaxPasswordAttempts), 0, MaxAttempts, 0)
    ensures env.hasToken && AuthRejected(env.firstTranslation) ==>
      TranslateOutcome(env) == Translated(Failure(MaxPasswordAttempts), 1, MaxAttempts, 0)
  {
    AttemptsFromOutcome(env.passwords, 0, 0, 2);
    if env.hasToken {
      assert env.passwords[0..] == env.passwords;
    }
  }

  /** The middle of `runMain`: authenticate when there is no token, translate
      the query, and after an authentication error authenticate again and
      translate once more. */
  method TranslateQuery(env: Env) returns (r: Result<DeviceResponse, Error>, translations: nat, passwordsRead: nat, tokenSaves: nat)
    ensures Translated(r, translations, passwordsRead, tokenSaves) == TranslateOutcome(env)
    ensures translations <= 2 && tokenSaves <= 2 && passwordsRead <= MaxAttempts
    ensures passwordsRead <= |env.passwords|
    // a token in hand means no password before the first translation
    ensures env.hasToken && !AuthRejected(env.firstTranslation) ==>
      translations == 1 && passwordsRead == 0 && tokenSaves == 0
    ensures translations == 0 ==> !env.hasToken && r.Failure?
    ensures !env.hasToken && translations >= 1 ==>
      RequestAuth(env.authenticated, env.passwords).0 == None && env.firstSave == None
    // one retry, after an authentication error only
    ensures translations >= 1 && !AuthRejected(env.firstTranslation) ==> translations == 1 && r == env.firstTranslation
    ensures translations == 2 ==> AuthRejected(env.firstTranslation) && r == env.secondTranslation
    ensures translations == 1 && AuthRejected(env.firstTranslation) ==> r.Failure?
  {
    passwordsRead, tokenSaves, translations := 0, 0, 0;
    var authenticated := env.authenticated;
    var passwords := env.passwords;
    if !env.hasToken {
      var e, used, didSave, nowAuthenticated := AuthenticateUser(authenticated, passwords, env.firstSave);
      passwordsRead, tokenSaves := used, if didSave then 1 else 0;
      if e.Some? {
        return Failure(e.value), translations, passwordsRead, tokenSaves;
      }
      authenticated := nowAuthenticated;
      passwords := passwords[used..];
    }

    r := env.firstTranslation;
    translations := 1;
    if r.Failure? && IsAuthenticationError(r.error) {
      var saveResult := if tokenSaves == 0 then env.firstSave else env.secondSave;
      var e, used, didSave, nowAuthenticated := AuthenticateUser(authenticated, passwords, saveResult);
      passwordsRead, tokenSaves := passwordsRead + used, tokenSaves + if didSave then 1 else 0;
      if e.Some? {
        return Failure(e.value), translations, passwordsRead, tokenSaves;
      }
      r := env.secondTranslation;
      translations := 2;
    }
    TranslateBounds(env);
  }

  /** The end of `runMain`, step by step: the error, the ids shown and the
      arguments sudo runs salt with. */
  function TargetsOutcome(show: bool, commands: seq<string>, session: (Api, string), resp: DeviceResponse, saltResult: Option<Error>)
    : (Option<Error>, Option<string>, Option<seq<string>>)
  {
    if !DistinctNames(resp.nameMatches) then (Some(DuplicateDevices(|Repeats(resp.nameMatches)|)), None, None)
    else
      var shown := if show then Some(TargetIds(session, resp)) else None;
      if |commands| == 0 then (None, shown, None)
      else if Targets(resp) == [] then (Some(NoValidDevices), shown, None)
      else (saltResult, shown,
            Some(["salt"] + (if |Targets(resp)| > 1 then ["-L"] else []) + [TargetIds(session, resp)] + commands))
  }

  /** The end of `runMain`: refuse ambiguous names, show the ids with --show,
      and run the commands, if any, on the translated devices. Returns the
      error, the ids shown and the arguments sudo ran salt with. */
  method RunOnTargets(show: bool, commands: seq<string>, session: (Api, string), resp: DeviceResponse, saltResult: Option<Error>)
    returns (err: Option<Error>, shown: Option<string>, salt: Option<seq<string>>)
    ensures (err, shown, salt) == TargetsOutcome(show, commands, session, resp, saltResult)
    ensures !DistinctNames(resp.nameMatches) ==>
      err == Some(DuplicateDevices(|Repeats(resp.nameMatches)|)) && shown == None && salt == None
    ensures shown.Some? <==> show && DistinctNames(resp.nameMatches)
    ensures shown.Some? ==> shown.value == TargetIds(session, resp)
    ensures DistinctNames(resp.nameMatches) && |commands| > 0 ==>
      if Targets(resp) == [] then err == Some(NoValidDevices) && salt == None
      else (err == saltResult
        && salt == Some(["salt"] + (if |Targets(resp)| > 1 then ["-L"] else []) + [TargetIds(session, resp)] + commands))
    ensures DistinctNames(resp.nameMatches) && |commands| == 0 ==> err == None && salt == None
  {
    var (api, saltPrefix) := session;
    var duplicates, _, _ := CheckForDuplicates(resp);
    if duplicates.Some? {
      return duplicates, None, None;
    }
    var allDevices := resp.devices + resp.nameMatches;
    shown := None;
    if show {
      var ids := SaltDeviceCommand(api.serverURL, allDevices, saltPrefix);
      shown := Some(ids);
    }
    salt := None;
    if |commands| > 0 {
      var run := RunSaltForDevices(api.serverURL, allDevices, commands, saltPrefix);
      if run.Failure? {
        return Some(run.error), shown, None;
      }
      return saltResult, shown, Some(run.value);
    }
    return None, shown, None;
  }

  /** `runMain` after the command line is parsed, step by step. */
  function RunOutcome(args: Args, config: Config, hosts: Hosts, typedName: string, tokens: map<string, string>, env: Env)
    : (Option<Error>, Trace)
    reads args.deviceInfo
  {
    if |args.commands| == 0 && !args.deviceInfo.RawQuery() then (Some(MissingCommands), Quiet)
    else if |args.commands| == 0 && !args.show then
      (env.saltResult, Quiet.(salt := Some(SudoArgs([args.deviceInfo.rawArg]))))
    else if |args.commands| > 0 && !args.deviceInfo.HasValues() then
      (env.saltResult, Quiet.(salt := Some(SudoArgs(args.commands))))
    else
      var (r, saved) := Resolve(args, config, hosts, typedName, tokens);
      if r.Failure? then (Some(r.error), Quiet.(savedConfig := saved))
      else
        var o := TranslateOutcome(env);
        var t := Quiet.(savedConfig := saved, session := Some(r.value), translations := o.translations,
                        passwordsRead := o.passwordsRead, tokenSaves := o.tokenSaves);
        if o.result.Failure? then (Some(o.result.error), t)
        else
          var (err, shown, salt) := TargetsOutcome(args.show, args.commands, r.value, o.result.value, env.saltResult);
          (err, t.(shown := shown, salt := salt))
  }

  /** Without commands a raw query is handed to salt, unless it is only to be
      shown; commands without a device query go to salt as they are; in
      neither case is the API asked. */
  lemma RunPassThrough(args: Args, config: Config, hosts: Hosts, typedName: string, tokens: map<string, string>, env: Env)
    ensures var (err, t) := RunOutcome(args, config, hosts, typedName, tokens, env);
      && (|args.commands| == 0 && !args.deviceInfo.RawQuery() ==> err == Some(MissingCommands) && t == Quiet)
      && (|args.commands| == 0 && args.deviceInfo.RawQuery() && !args.show ==>
            err == env.saltResult && t == Quiet.(salt := Some(SudoArgs([args.deviceInfo.rawArg]))))
      && (|args.commands| > 0 && !args.deviceInfo.HasValues() ==>
            err == env.saltResult && t == Quiet.(salt := Some(SudoArgs(args.commands))))
      && (!Translates(args) ==> t.translations == 0 && t.session == None && t.passwordsRead == 0)
  {
  }

  /** A run that translates uses the server, salt prefix and user that
      `apiFromArgs` resolves, and saves the configuration it saves; an unknown
      alias ends the run with its error before anything is asked. */
  lemma RunResolution(args: Args, config: Config, hosts: Hosts, typedName: string, tokens: map<string, string>, env: Env)
    ensures var (err, t) := RunOutcome(args, config, hosts, typedName, tokens, env);
      var (r, saved) := Resolve(args, config, hosts, typedName, tokens);
      && (Translates(args) ==> t.savedConfig == saved && (t.session.Some? <==> r.Success?))
      && (t.session.Some? ==> r == Success(t.session.value))
      && (Translates(args) && r.Failure? ==>
            err == Some(r.error) && err == Some(ServerNotFound(args.server))
            && t.translations == 0 && t.passwordsRead == 0 && t.salt == None && t.shown == None)
      && (args.testPrefix && t.session.Some? ==> t.session.value.1 == TestPrefix)
  {
    ResolveFollowsPrecedence(args, config, hosts, typedName, tokens);
  }

  /** The translation stage of a run: its counts are those of
      `TranslateOutcome`, an error that ends it ends the run with nothing shown
      or run, at most three passwords are read, and the second translation
      follows an authentication error only. */
  lemma RunTranslation(args: Args, config: Config, hosts: Hosts, typedName: string, tokens: map<string, string>, env: Env)
    ensures var (err, t) := RunOutcome(args, config, hosts, typedName, tokens, env);
      var o := TranslateOutcome(env);
      && (t.translations > 0 ==> Translates(args) && t.session.Some?)
      && (t.session.Some? ==>
            t.translations == o.translations && t.passwordsRead == o.passwordsRead && t.tokenSaves == o.tokenSaves)
      && (t.session.Some? && o.result.Failure? ==> err == Some(o.result.error) && t.salt == None && t.shown == None)
      && (Translates(args) && t.translations == 0 ==> err.Some? && t.salt == None && t.shown == None)
      && t.translations <= 2 && t.tokenSaves <= 2 && t.passwordsRead <= MaxAttempts
      && t.passwordsRead <= |env.passwords|
      && (t.translations == 2 ==> AuthRejected(env.firstTranslation) && ReAuth(env).err == None)
      && ((t.translations >= 1 && Translation(env, t).Failure?
           && (t.translations == 2 || !AuthRejected(env.firstTranslation))) ==>
            err == Some(Translation(env, t).error) && t.salt == None && t.shown == None)
      && (t.translations == 1 && AuthRejected(env.firstTranslation) ==>
            err == Some(ReAuth(env).err.value) && t.salt == None && t.shown == None)
      && (env.hasToken && t.translations >= 1 && !AuthRejected(env.firstTranslation) ==>
            t.passwordsRead == 0 && t.tokenSaves == 0)
      && (!env.hasToken && t.translations >= 1 ==>
            RequestAuth(env.authenticated, env.passwords).0 == None && env.firstSave == None)
  {
    TranslateCases(env);
    TranslateBounds(env);
  }

  /** The end of a run: ambiguous names stop it before anything is shown or
      run; --show prints the ids of the resolved targets; salt runs on them
      with the user's commands, and no targets is an error. */
  lemma RunTargets(args: Args, config: Config, hosts: Hosts, typedName: string, tokens: map<string, string>, env: Env)
    ensures var (err, t) := RunOutcome(args, config, hosts, typedName, tokens, env);
      && (t.translations >= 1 && Translation(env, t).Success? && !Resolved(env, t) ==>
            err == Some(DuplicateDevices(|Repeats(Translation(env, t).value.nameMatches)|))
            && t.salt == None && t.shown == None)
      && (t.shown.Some? <==> args.show && Resolved(env, t))
      && (t.shown.Some? ==> t.session.Some? && t.shown.value == TargetIds(t.session.value, Translation(env, t).value))
      && (Resolved(env, t) && |args.commands| > 0 ==>
            var targets := Targets(Translation(env, t).value);
            if targets == [] then err == Some(NoValidDevices) && t.salt == None
            else (err == env.saltResult && t.session.Some?
              && t.salt == Some(["salt"] + (if |targets| > 1 then ["-L"] else [])
                   + [TargetIds(t.session.value, Translation(env, t).value)] + args.commands)))
      && (Resolved(env, t) && |args.commands| == 0 ==> err == None && t.salt == None)
      && (Translates(args) && t.salt.Some? ==> Resolved(env, t))
  {
    TranslateCases(env);
    var (err, t) := RunOutcome(args, config, hosts, typedName, tokens, env);
    var o := TranslateOutcome(env);
    if t.translations >= 1 && o.result.Success? {
      assert t.session.Some? && Translation(env, t) == o.result;
    }
  }

  /** `runMain` after the command line is parsed. */
  method RunMain(args: Args, config: Config, hosts: Hosts, typedName: string, tokens: map<string, string>, env: Env)
    returns (err: Option<Error>, t: Trace)
    ensures (err, t) == RunOutcome(args, config, hosts, typedName, tokens, env)
  {
    if |args.commands| == 0 {
      if args.deviceInfo.RawQuery() {
        if !args.show {
          return env.saltResult, Quiet.(salt := Some(SudoArgs([args.deviceInfo.rawArg])));
        }
      } else {
        return Some(MissingCommands), Quiet;
      }
    } else if !args.deviceInfo.HasValues() {
      return env.saltResult, Quiet.(salt := Some(SudoArgs(args.commands)));
    }
    var r, saved := ApiFromArgs(args, config, hosts, typedName, tokens);
    t := Quiet.(savedConfig := saved);
    if r.Failure? {
      return Some(r.error), t;
    }
    t := t.(session := Some(r.value));

    var devResp, translations, passwordsRead, tokenSaves := TranslateQuery(env);
    t := t.(translations := translations, passwordsRead := passwordsRead, tokenSaves := tokenSaves);
    if devResp.Failure? {
      return Some(devResp.error), t;
    }
    var shown, salt;
    err, shown, salt := RunOnTargets(args.show, args.commands, r.value, devResp.value, env.saltResult);
    t := t.(shown := shown, salt := salt);
  }
}
