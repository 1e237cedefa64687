/** Polling for the login tokens with a growing pause (src/tw/auth.cpp). */
module LoginPoll {
  const MAX_ATTEMPTS := 10
  const DELAY_MS := 300

  /** A failed request or one without an access token; one without a refresh token; a complete one. */
  datatype Response = Refused | AccessOnly(access: string) | Complete(access: string, refresh: string)

  /** The pause after the j-th failure, in units of the delay. */
  function Pause(j: nat): nat {
    if j >= 4 then j else 1
  }

  /** Time spent on `failures` failed attempts, in units of the delay: one before each, one pause after. */
  function Waited(failures: nat): nat {
    if failures == 0 then 0 else Waited(failures - 1) + 1 + Pause(failures)
  }

  lemma PauseAdds(delay: nat, k: nat)
    requires k > 0
    ensures delay * (Waited(k - 1) + 1) + delay * Pause(k) == delay * Waited(k)
  {
  }

  /** The access token left by the first `n` responses. */
  function LastAccess(responses: nat -> Response, n: nat, initial: string): string {
    if n == 0 then initial
    else match responses(n - 1)
      case Refused => LastAccess(responses, n - 1, initial)
      case AccessOnly(a) => a
      case Complete(a, _) => a
  }

  class Auth {
    var accessToken: string
    var refreshToken: string

    constructor ()
      ensures accessToken == "" && refreshToken == ""
    {
      accessToken, refreshToken := "", "";
    }

    /** The access token is stored before the refresh token is looked for. */
    method RequestToken(response: Response) returns (ok: bool)
      modifies this
      ensures ok <==> response.Complete?
      ensures accessToken == (if response.Refused? then old(accessToken) else response.access)
      ensures refreshToken == (if response.Complete? then response.refresh else old(refreshToken))
    {
      if response.Refused? {
        return false;
      }
      accessToken := response.access;
      if response.AccessOnly? {
        return false;
      }
      refreshToken := response.refresh;
      return true;
    }

    /** `responses(k)` answers the k-th request; `used` counts the requests made. */
    method Poll(responses: nat -> Response, maxAttempts: nat, delay: nat)
      returns (gotToken: bool, slept: nat, used: nat)
      modifies this
      ensures gotToken <==> exists k :: 0 <= k < maxAttempts && responses(k).Complete?
      ensures gotToken ==>
                && 0 < used <= maxAttempts
                && (forall k :: 0 <= k < used - 1 ==> !responses(k).Complete?)
                && responses(used - 1) == Complete(accessToken, refreshToken)
                && slept == delay * (Waited(used - 1) + 1)
      ensures !gotToken ==>
                && used == maxAttempts && slept == delay * Waited(maxAttempts)
                && refreshToken == old(refreshToken)
                && accessToken == LastAccess(responses, maxAttempts, old(accessToken))
    {
      gotToken, slept, used := false, 0, 0;
      var attempts := 0;
      while !gotToken && attempts < maxAttempts
        invariant attempts <= maxAttempts
        invariant forall k :: 0 <= k < attempts ==> !responses(k).Complete?
        invariant !gotToken ==> used == attempts && slept == delay * Waited(attempts) && refreshToken == old(refreshToken)
        invariant !gotToken ==> accessToken == LastAccess(responses, attempts, old(accessToken))
        invariant gotToken ==> used == attempts + 1 <= maxAttempts && slept == delay * (Waited(attempts) + 1)
        invariant gotToken ==> responses(attempts) == Complete(accessToken, refreshToken)
        decreases maxAttempts - attempts, !gotToken
      {
        slept := slept + delay;
        assert slept == delay * (Waited(attempts) + 1);
        gotToken := RequestToken(responses(attempts));
        used := used + 1;
        if !gotToken {
          attempts := attempts + 1;
          if attempts >= 4 {
            slept := slept + delay * attempts;
          } else {
            slept := slept + delay;
          }
          PauseAdds(delay, attempts);
        }
      }
    }
  }

  /** The closed form of the waiting time. */
  lemma {:induction false} WaitedClosedForm(n: nat)
    ensures n >= 3 ==> Waited(n) == n + n * (n + 1) / 2 - 3
    ensures n < 3 ==> Waited(n) == 2 * n
  {
    if n > 0 {
      WaitedClosedForm(n - 1);
      assert n * (n + 1) == (n - 1) * n + 2 * n;
    }
  }

  /** A login that times out has slept for 18.6 seconds. */
  lemma TimeoutDuration()
    ensures DELAY_MS * Waited(MAX_ATTEMPTS) == 18_600
  {
    WaitedClosedForm(MAX_ATTEMPTS);
  }
}
