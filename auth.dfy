/** Interactive authentication: up to three password prompts, stopping at the
    first accepted password or at the first error that is not an
    authentication error. The terminal and the API's answers are given as a
    script of attempts. */
module Auth {
  import opened Wrappers
  import opened UserApi

  /** `maxPasswordAttempts`. */
  const MaxAttempts: nat := 3

  /** One password prompt: the terminal could not be read, or the API accepted
      the password, rejected it with an authentication error, or failed with
      another error. */
  datatype Attempt = ReadFailed(message: string) | Accepted | Rejected(message: string) | Failed(message: string)

  /** The error reading a password yields once the terminal has no more input. */
  const EndOfInput := External("EOF")

  /** The error `api.Authenticate` returns for an answered attempt. */
  function AuthenticateResult(a: Attempt): Option<Error>
    requires !a.ReadFailed?
  {
    match a
    case Accepted => None
    case Rejected(m) => Some(Authentication(m))
    case Failed(m) => Some(External(m))
  }

  /** Outcome of the prompts from attempt `i` on, `failures` rejections so far:
      the error (None for success) and how many attempts were read. */
  function AttemptsFrom(script: seq<Attempt>, i: nat, failures: nat): (Option<Error>, nat)
    requires i <= |script| && failures < MaxAttempts
    decreases |script| - i
  {
    if i == |script| then (Some(EndOfInput), i)
    else match script[i]
      case ReadFailed(m) => (Some(External(m)), i + 1)
      case Accepted => (None, i + 1)
      case Failed(m) => (Some(External(m)), i + 1)
      case Rejected(_) =>
        if failures + 1 == MaxAttempts then (Some(MaxPasswordAttempts), i + 1)
        else AttemptsFrom(script, i + 1, failures + 1)
  }

  /** Outcome of `requestAuthentication`: nothing is asked when already
      authenticated. */
  function RequestAuth(authenticated: bool, script: seq<Attempt>): (Option<Error>, nat)
  {
    if authenticated then (None, 0) else AttemptsFrom(script, 0, 0)
  }

  /** The first `k` attempts were all rejected passwords. */
  predicate RejectedUpTo(script: seq<Attempt>, k: nat)
  {
    k <= |script| && forall j :: 0 <= j < k ==> script[j].Rejected?
  }

  lemma {:induction false} AttemptsFromBound(script: seq<Attempt>, i: nat, failures: nat)
    requires i <= |script| && failures < MaxAttempts
    ensures var (_, used) := AttemptsFrom(script, i, failures);
      i <= used <= |script| && used - i <= MaxAttempts - failures
    decreases |script| - i
  {
    if i < |script| && script[i].Rejected? && failures + 1 < MaxAttempts {
      AttemptsFromBound(script, i + 1, failures + 1);
    }
  }

  /** At most three passwords are read. */
  lemma RequestAuthBound(authenticated: bool, script: seq<Attempt>)
    ensures RequestAuth(authenticated, script).1 <= MaxAttempts
    ensures RequestAuth(authenticated, script).1 <= |script|
  {
    if !authenticated {
      AttemptsFromBound(script, 0, 0);
    }
  }

  lemma {:induction false} AttemptsFromOutcome(script: seq<Attempt>, i: nat, failures: nat, k: nat)
    requires i <= |script| && failures < MaxAttempts
    requires i <= k < |script| && k - i < MaxAttempts - failures
    requires forall j :: i <= j < k ==> script[j].Rejected?
    ensures script[k].Accepted? ==> AttemptsFrom(script, i, failures) == (None, k + 1)
    ensures (script[k].Failed? || script[k].ReadFailed?) ==>
      AttemptsFrom(script, i, failures) == (Some(External(script[k].message)), k + 1)
    ensures script[k].Rejected? && k - i == MaxAttempts - failures - 1 ==>
      AttemptsFrom(script, i, failures) == (Some(MaxPasswordAttempts), k + 1)
    decreases k - i
  {
    if i < k {
      AttemptsFromOutcome(script, i + 1, failures + 1, k);
    }
  }

  /** After `k` rejected passwords (k < 3), the next attempt decides: an
      accepted password succeeds, and any error other than an authentication
      error is returned at once; no further password is read. */
  lemma DecidedAt(script: seq<Attempt>, k: nat)
    requires k < MaxAttempts && k < |script| && RejectedUpTo(script, k)
    ensures script[k].Accepted? ==> RequestAuth(false, script) == (None, k + 1)
    ensures (script[k].Failed? || script[k].ReadFailed?) ==>
      RequestAuth(false, script) == (Some(External(script[k].message)), k + 1)
  {
    AttemptsFromOutcome(script, 0, 0, k);
  }

  /** Three rejected passwords end with "Max Password Attempts", and nothing
      else does. */
  lemma MaxAttemptsExactly(authenticated: bool, script: seq<Attempt>)
    ensures RequestAuth(authenticated, script).0 == Some(MaxPasswordAttempts)
      <==> !authenticated && RejectedUpTo(script, MaxAttempts)
  {
    if !authenticated {
      if RejectedUpTo(script, MaxAttempts) {
        AttemptsFromOutcome(script, 0, 0, 2);
      } else {
        var k: nat := if |script| == 0 || !script[0].Rejected? then 0
          else if |script| == 1 || !script[1].Rejected? then 1 else 2;
        assert RejectedUpTo(script, k);
        if k == |script| {
          EndOfInputAt(script, 0, 0);
        } else {
          AttemptsFromOutcome(script, 0, 0, k);
        }
      }
    }
  }

  /** Authentication succeeds exactly when the user was already authenticated
      or one of the first three passwords is accepted after rejected ones. */
  lemma SucceedsExactly(authenticated: bool, script: seq<Attempt>)
    ensures RequestAuth(authenticated, script).0 == None <==>
      authenticated ||
      exists k :: 0 <= k < MaxAttempts && k < |script| && RejectedUpTo(script, k) && script[k].Accepted?
  {
    if !authenticated {
      var k: nat := if |script| == 0 || !script[0].Rejected? then 0
        else if |script| == 1 || !script[1].Rejected? then 1
        else if |script| == 2 || !script[2].Rejected? then 2 else 3;
      assert RejectedUpTo(script, k);
      if k == MaxAttempts {
        MaxAttemptsExactly(authenticated, script);
        assert forall j :: 0 <= j < MaxAttempts && j < |script| ==> !script[j].Accepted?;
      } else if k == |script| {
        EndOfInputAt(script, 0, 0);
        assert forall j :: 0 <= j < |script| ==> !script[j].Accepted?;
      } else {
        AttemptsFromOutcome(script, 0, 0, k);
        assert forall j :: 0 <= j < k ==> !script[j].Accepted?;
      }
    }
  }

  lemma {:induction false} EndOfInputAt(script: seq<Attempt>, i: nat, failures: nat)
    requires i <= |script| && failures < MaxAttempts
    requires |script| - i < MaxAttempts - failures
    requires forall j :: i <= j < |script| ==> script[j].Rejected?
    ensures AttemptsFrom(script, i, failures) == (Some(EndOfInput), |script|)
    decreases |script| - i
  {
    if i < |script| {
      EndOfInputAt(script, i + 1, failures + 1);
    }
  }

  /** `requestAuthentication`: prompts until a password is accepted, an error
      other than an authentication error occurs, or three passwords were
      rejected. Returns the error (None on success) and the number of attempts
      read. */
  method RequestAuthentication(authenticated: bool, passwords: seq<Attempt>) returns (err: Option<Error>, used: nat)
    ensures (err, used) == RequestAuth(authenticated, passwords)
  {
    var attempts := 0;
    used := 0;
    var isAuthenticated := authenticated;
    while !isAuthenticated
      invariant attempts == used && attempts < MaxAttempts && used <= |passwords|
      invariant !isAuthenticated ==> RequestAuth(authenticated, passwords) == AttemptsFrom(passwords, used, attempts)
      invariant isAuthenticated ==> RequestAuth(authenticated, passwords) == (None, used)
      decreases MaxAttempts - attempts, if isAuthenticated then 0 else 1
    {
      if used == |passwords| {
        return Some(EndOfInput), used;
      }
      var attempt := passwords[used];
      used := used + 1;
      if attempt.ReadFailed? {
        return Some(External(attempt.message)), used;
      }
      var e := AuthenticateResult(attempt);
      if e == None {
        isAuthenticated := true;
        break;
      } else if !IsAuthenticationError(e.value) {
        return e, used;
      }
      attempts := attempts + 1;
      if attempts == MaxAttempts {
        return Some(MaxPasswordAttempts), used;
      }
    }
    return None, used;
  }

  /** What `authenticateUser` reports: the error, the attempts read, whether a
      token save was made and whether the user is authenticated afterwards. */
  datatype AuthResult = AuthResult(err: Option<Error>, used: nat, saved: bool, nowAuthenticated: bool)

  /** The outcome of `authenticateUser`: the password prompts, then, once
      authenticated, the token save, whose result is `saveResult`. */
  function AuthOutcome(authenticated: bool, passwords: seq<Attempt>, saveResult: Option<Error>): (o: AuthResult)
    ensures o.used <= MaxAttempts && o.used <= |passwords|
    ensures authenticated ==> o.used == 0
  {
    RequestAuthBound(authenticated, passwords);
    var (e, used) := RequestAuth(authenticated, passwords);
    if e.Some? then AuthResult(e, used, false, authenticated)
    else AuthResult(saveResult, used, true, true)
  }

  /** `authenticateUser`: asks for a password unless already authenticated,
      then saves a token; `saveResult` is what saving the token returns.
      Reports the error, the attempts read, whether a token save was made and
      whether the user is authenticated afterwards. */
  method AuthenticateUser(authenticated: bool, passwords: seq<Attempt>, saveResult: Option<Error>)
    returns (err: Option<Error>, used: nat, saved: bool, nowAuthenticated: bool)
    ensures AuthResult(err, used, saved, nowAuthenticated) == AuthOutcome(authenticated, passwords, saveResult)
    ensures used == RequestAuth(authenticated, passwords).1 && used <= MaxAttempts && used <= |passwords|
    ensures saved <==> RequestAuth(authenticated, passwords).0 == None
    ensures err == if saved then saveResult else RequestAuth(authenticated, passwords).0
    ensures nowAuthenticated <==> authenticated || saved
  {
    RequestAuthBound(authenticated, passwords);
    nowAuthenticated := authenticated;
    used := 0;
    if !authenticated {
      err, used := RequestAuthentication(authenticated, passwords);
      if err != None {
        return err, used, false, false;
      }
      nowAuthenticated := true;
    }
    return saveResult, used, true, nowAuthenticated;
  }
}
