# csalt, modelled in Dafny

csalt is a wrapper around SaltStack's `salt` command. It turns human device
names into salt minion ids. The user gives a query such as `"group1:,group2:gp"`
and some salt commands. csalt asks the Cacophony user API to translate the
query into devices. It refuses names that match more than one device. Then it
runs `sudo salt` on ids of the form `pi[-prefix]-<saltId>`. Before translating,
csalt settles three things: which API server and salt prefix to use (command
line flags, a server alias from the configuration file, or the defaults), which
user to act as, and whether to prompt for a password (at most three attempts)
when there is no token or the API rejects the one it has.

The model covers all of `cmd/csalt/main.go` except argument parsing and
printing:

| module (file) | what it models |
|---|---|
| `Wrappers` (`wrappers.dfy`) | `Option` and `Result` |
| `GoStrings` (`gostrings.dfy`) | the Go library functions the core uses: `strings.TrimSpace`, `strings.Split`, `strings.Index` and `strconv.Itoa`; also `Join` and `Atoi`, the partners used in the round-trip lemmas |
| `UserApi` (`userapi.dfy`) | the values the core exchanges with the userapi package: `Device`, `DeviceResponse`, `Config`, `ServerInfo`; and the errors of a run, with the exact messages the code builds |
| `Query` (`query.dfy`) | `DeviceQuery` as a class: `UnmarshalText`, `RawQuery`, `HasValues`; also the term classification it performs |
| `Salt` (`salt.dfy`) | `getSaltPrefix`, `saltDeviceCommand`, and `runSaltForDevices` / `runSalt` up to the argument list given to `sudo` |
| `Duplicates` (`duplicates.dfy`) | `checkForDuplicates` |
| `Session` (`session.dfy`) | the command line record, and `apiFromArgs` with its precedence chain |
| `Auth` (`auth.dfy`) | `requestAuthentication` and `authenticateUser` |
| `Dispatch` (`dispatch.dfy`) | `runMain`, in three stages: the pass-through branches, authenticate-and-translate with one retry, and duplicates/show/run; each stage and the whole run are proved equal to a step-by-step function |

Everything outside the process is an input:

- The configuration file, the saved tokens and the name typed at the username
  prompt are parameters of `Session.ApiFromArgs`.
- The API's answers, the password prompts and the exit status of salt form the
  `Dispatch.Env` record.
- What a run did (the salt arguments, translations, passwords read, token
  saves, ids shown, configuration saved) is returned as `Dispatch.Trace`.

Behaviours of the code worth noting, all modelled as written:

- An empty term of the query, such as the middle of `"a,,b"` or a blank query,
  is not dropped. It becomes a device with an empty name (`Query.ParseCount`).
- With no commands and a non-empty raw query, the raw text goes to salt whether
  or not it contains group or device syntax. Only `--show` changes that: with
  `--show` the run goes on to translate the query and print the ids
  (`Dispatch.RunPassThrough`).
- With commands and a query that has no entries, only the commands go to salt,
  not the raw query text. Parsing always yields at least one entry, so this
  branch is taken only when no query was parsed
  (`Query.DeviceQuery.UnmarshalText` ensures `HasValues()`).
- The count in the duplicate error is the number of repeated occurrences, not
  the number of ambiguous names: three devices named `gp` count 2
  (`Duplicates.RepeatsCount`).
- `--live` wins over `--test`, and with both given the salt prefix is empty
  unless `-t` is also given (`Session.Precedence`).
- An accepted password leaves the user authenticated, so the
  re-authentication after a rejected translation prompts only when the first
  translation ran on a saved token; a whole run reads at most three passwords
  (`Dispatch.TranslateBounds`).

## Model

| member | source | states |
|---|---|---|
| GoStrings.TrimSpaceSpec | cmd/csalt/main.go:61 | the trimmed text is a contiguous piece of the input that neither starts nor ends with white space, and everything cut off on either side is white space |
| GoStrings.SplitPieces | cmd/csalt/main.go:61 | splitting on a separator gives separator-free pieces, exactly one more than the separator's occurrences, so never an empty list |
| GoStrings.JoinSplit | cmd/csalt/main.go:61 | joining the pieces of a split with the same separator gives back the original text |
| GoStrings.SplitJoin | cmd/csalt/main.go:61 | splitting the join of a non-empty list of separator-free pieces gives back the list |
| GoStrings.IndexOf | cmd/csalt/main.go:64 | the result is -1 exactly when the character is absent; otherwise it is the position of its first occurrence |
| GoStrings.ItoaRoundTrip | cmd/csalt/main.go:203 | the decimal text of any integer, with a leading '-' for a negative one, parses back to the same integer |
| Query.Terms | cmd/csalt/main.go:61 | the query is cut into at least one term |
| Query.ClassifyCases | cmd/csalt/main.go:64-79 | a term with no colon names a device of any group; a leading colon names a device of any group by the rest; otherwise the first colon separates the group from the device, and a colon at the end means the whole group |
| Query.ClassifyWellFormed | cmd/csalt/main.go:64-79 | every term yields a well-formed entry: a device has an empty or colon-free group and, when it has a group, a non-empty name; a group is non-empty and colon-free |
| Query.ClassifyRender | cmd/csalt/main.go:64-79 | every well-formed entry is what its canonical `group:device` or `group:` spelling parses to, so classification loses nothing |
| Query.ParseCount | cmd/csalt/main.go:63-80 | each term yields exactly one device or one group: none is dropped, none counted twice |
| Query.ParseAppend | cmd/csalt/main.go:63-80 | the devices and groups of a concatenation of terms are those of the parts, in order |
| Query.QueryEntries | cmd/csalt/main.go:59-82 | a query yields one entry more than the commas in its trimmed text |
| Query.DeviceQuery.UnmarshalText | cmd/csalt/main.go:47-82 | never fails; records the raw text, so RawQuery holds exactly for a non-empty argument; appends the parsed devices and groups in term order to those already held; HasValues holds afterwards |
| Salt.GetSaltPrefix | cmd/csalt/main.go:188-194 | the id prefix is "pi" exactly when there is no salt prefix, and "pi-" followed by the salt prefix otherwise; the server URL takes no part |
| Salt.SaltNameDecodes | cmd/csalt/main.go:202-203 | a minion id consists of the id prefix, a dash and the decimal salt id, which can be read back |
| Salt.SaltDeviceCommand | cmd/csalt/main.go:198-207 | the ids of all devices in order, separated by single spaces; empty exactly for no devices; no leading or trailing space; splitting on spaces gives back the ids when the salt prefix has no space |
| Salt.SaltListShape | cmd/csalt/main.go:198-207 | a non-empty id list starts with 'p', does not end in a space, and splits back into its ids |
| Salt.RunSaltForDevices | cmd/csalt/main.go:210-228 | fails with "No valid devices found" exactly when there are no devices; otherwise sudo gets `salt`, then `-L` exactly when there is more than one device, then the id list, then the user's commands unchanged |
| Duplicates.CheckForDuplicates | cmd/csalt/main.go:284-305 | succeeds exactly when the name matches have pairwise distinct names; otherwise the error counts the repeated occurrences; the name map holds, for every matched name, all its devices in order |
| Duplicates.RepeatsCount | cmd/csalt/main.go:286-294 | the repeated occurrences number the matches less the distinct names |
| Duplicates.RepeatsEmpty | cmd/csalt/main.go:294-305 | no repeated occurrence exactly when all names are distinct |
| Duplicates.RepeatsAreAmbiguous | cmd/csalt/main.go:286-294 | a name is reported exactly when at least two matches carry it |
| Session.ApiFromArgs | cmd/csalt/main.go:239-281 | the step-by-step reassignments give exactly the resolution `Session.Resolve`, and they follow `Session.Precedence`: an unknown alias is the only error, and nothing is saved then; server: --live, then --test, then the alias, then the configured URL, then the live host; salt prefix: "test" under -t or under --test without --live, else the alias's, else none; user: --user, then the alias's, then the configured one, then the prompt, and the configuration is saved exactly when the prompt was used; the token is the user's saved one or empty |
| Session.ResolveFollowsPrecedence | cmd/csalt/main.go:239-281 | the resolution a run uses follows the whole precedence above |
| Auth.RequestAuthentication | cmd/csalt/main.go:154-176 | the error and the number of passwords read equal those of the prompt-by-prompt definition `RequestAuth`, which asks nothing of an authenticated user |
| Auth.RequestAuthBound | cmd/csalt/main.go:154-176 | at most three passwords are read |
| Auth.MaxAttemptsExactly | cmd/csalt/main.go:169-172 | "Max Password Attempts" is returned exactly when an unauthenticated user has the first three passwords rejected |
| Auth.SucceedsExactly | cmd/csalt/main.go:157-166 | authentication succeeds exactly when the user already was authenticated or one of the first three passwords is accepted after rejected ones |
| Auth.DecidedAt | cmd/csalt/main.go:158-168 | after rejected passwords, an accepted one ends the loop, and an unreadable password or an error that is not an authentication error is returned at once without reading another |
| Auth.AuthenticateUser | cmd/csalt/main.go:143-151 | a token is saved exactly when authentication succeeds, and the save's result is returned then; the user is authenticated afterwards exactly when they already were or the token was saved |
| Dispatch.TranslateCases | cmd/csalt/main.go:345-364 | a failed first authentication (only without a token) ends the stage with its own error before any translation; the second translation happens exactly after an authentication error and a successful re-authentication; a failed re-authentication ends the stage with its own error |
| Dispatch.TranslateBounds | cmd/csalt/main.go:345-364 | the stage reads at most three passwords, never more than are given, and saves at most two tokens |
| Dispatch.ThreeRejectionsStop | cmd/csalt/main.go:169-172 | three rejected passwords end the stage with "Max Password Attempts": before any translation without a token, and at the re-authentication when the saved token was refused |
| Dispatch.TranslateQuery | cmd/csalt/main.go:345-364 | returns exactly the outcome `Dispatch.TranslateOutcome` — re-authentication on the passwords the first one left, token saves used in order — with the bounds and retry rule above |
| Dispatch.RunOnTargets | cmd/csalt/main.go:370-383 | returns exactly `Dispatch.TargetsOutcome`: ambiguous names stop the run before anything is shown or run; --show prints the ids of devices then name matches; salt runs on those with the commands, and no devices is an error |
| Dispatch.RunMain | cmd/csalt/main.go:321-384 | the run's error and trace are exactly `Dispatch.RunOutcome` of the command line, configuration and outside answers, whose properties are the four lemmas below |
| Dispatch.RunPassThrough | cmd/csalt/main.go:325-335 | no commands and no raw text fails with "Commands/deviceinfo must be specified"; raw text alone (without --show) or commands without a query go to salt untouched; in none of these is the API asked |
| Dispatch.RunResolution | cmd/csalt/main.go:336-339 | a run that translates uses exactly the server, prefix and user `apiFromArgs` resolves, and saves the configuration it saves; an unknown alias ends the run with "Cannot find … server info" before any password or translation; under -t the prefix that reaches the ids is "test" |
| Dispatch.RunTranslation | cmd/csalt/main.go:345-364 | the run's counts are the translation stage's; any error ending that stage, including a failed password cycle, ends the run with that error and nothing shown or run; at most three passwords; a second translation only after an authentication error and a successful re-authentication |
| Dispatch.RunTargets | cmd/csalt/main.go:370-383 | duplicates stop the run before anything is shown or run; --show prints exactly the ids of the translated targets; salt runs on exactly those targets with the user's commands; no targets is an error |
| UserApi.ServerNotFoundMessage | cmd/csalt/main.go:254 | the unknown-server message names the alias right after "Cannot find " |
| UserApi.DuplicateMessage | cmd/csalt/main.go:303 | the duplicate message carries the count of repeated occurrences in decimal, readable back |

## Left out

- Argument parsing by go-arg (`procArgs`) and the help text (`Description`): the parsed `Session.Args` is the input.
- Printing: debug and verbose output, `showTranslatedDvices`, the duplicate report (modelled as the returned name map), and the prompts' texts.
- Process execution: `runSalt` is modelled up to the arguments given to `sudo`; the exit status is an input. Standard input and output wiring is not modelled.
- The userapi package is not part of this model. `TranslateNames`, `Authenticate`, `SaveTemporaryToken`, `HasToken`, `Authenticated` and `ReadTokenFor` are inputs: `Dispatch.Env`, `Auth.Attempt` and a map of saved tokens. The live and test API hosts are the `Session.Hosts` parameter.
- Dispatch.RunMain: authentication state is a flag. It starts as given and only an accepted password sets it, so a token that fails to authorise is not otherwise modelled.
- Session.ApiFromArgs: a failed `ReadTokenFor` is modelled as an empty token. The result of saving the configuration is ignored, as in the code, and loading it cannot fail.
- Auth.RequestAuthentication: a password prompt with no input left fails with "EOF", standing in for the terminal's error.
- Text is modelled as sequences of characters, while Go works on UTF-8 bytes. The separators involved (',', ':', ' ') are ASCII and behave the same either way. `TrimSpace` is modelled on code points.
- Go's `append` may share backing storage. Here the devices and name matches are combined as values.
- The `debug` global variable only controls printing and is left out.
