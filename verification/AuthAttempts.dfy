/** Public-key authentication on one connection: a cap on failed lookups. */
module AuthAttempts {
  import opened Prelude
  import opened Auth

  datatype AuthState = AuthState(failures: nat, identity: Option<Identity>)

  /** What one attempt came to: whether the provider was asked, and whether the key was accepted. */
  datatype Attempt = Attempt(lookedUp: bool, accepted: bool)

  const FRESH: AuthState := AuthState(0, None)

  predicate MayTry(max: nat, failures: nat) {
    max == 0 || failures < max
  }

  /** `answer` is what the provider says, should it be asked. */
  function Authenticate(max: nat, s: AuthState, answer: Option<Identity>): (Attempt, AuthState) {
    if !MayTry(max, s.failures) then (Attempt(false, false), s)
    else if answer.Some? then (Attempt(true, true), s.(identity := answer))
    else (Attempt(true, false), s.(failures := s.failures + 1))
  }

  class ServerAuth {
    const maxAttempts: nat
    var failures: nat
    var authenticatedIdentity: Option<Identity>

    constructor (maxAttempts: nat)
      ensures this.maxAttempts == maxAttempts && State() == FRESH
    {
      this.maxAttempts := maxAttempts;
      this.failures := 0;
      this.authenticatedIdentity := None;
    }

    function State(): AuthState
      reads this
    {
      AuthState(failures, authenticatedIdentity)
    }

    method AuthPublickey(fingerprint: string, resolve: string -> Option<Identity>) returns (attempt: Attempt)
      modifies this
      ensures (attempt, State()) == Authenticate(maxAttempts, old(State()), resolve(fingerprint))
    {
      var may := maxAttempts == 0 || failures < maxAttempts;
      if !may {
        return Attempt(false, false);
      }
      var identity := resolve(fingerprint);
      match identity {
        case Some(_) =>
          authenticatedIdentity := identity;
          return Attempt(true, true);
        case None =>
          failures := failures + 1;
          return Attempt(true, false);
      }
    }
  }

  function Attempts(max: nat, s: AuthState, answers: seq<Option<Identity>>): (trace: seq<Attempt>)
    ensures |trace| == |answers|
    decreases |answers|
  {
    if answers == [] then [] else
      var (attempt, s') := Authenticate(max, s, answers[0]);
      [attempt] + Attempts(max, s', answers[1..])
  }

  function After(max: nat, s: AuthState, answers: seq<Option<Identity>>): AuthState
    decreases |answers|
  {
    if answers == [] then s else After(max, Authenticate(max, s, answers[0]).1, answers[1..])
  }

  /** How many of the keys offered are unknown to the provider, asked or not. */
  function Unknown(answers: seq<Option<Identity>>): nat {
    if answers == [] then 0 else (if answers[0].None? then 1 else 0) + Unknown(answers[1..])
  }

  /** The identity of the last known key, or the given one. */
  function LastKnown(answers: seq<Option<Identity>>, otherwise: Option<Identity>): Option<Identity> {
    if answers == [] then otherwise
    else LastKnown(answers[1..], if answers[0].Some? then answers[0] else otherwise)
  }

  /**
   The i-th attempt is looked up precisely while fewer than `max` of the keys
   before it were unknown, successes in between changing nothing; and accepted
   precisely when it is looked up and known.
   */
  lemma {:induction false} AttemptsClosedForm(max: nat, s: AuthState, answers: seq<Option<Identity>>, i: nat)
    requires i < |answers| && (max > 0 ==> s.failures <= max)
    ensures var a := Attempts(max, s, answers)[i];
            && (a.lookedUp <==> MayTry(max, s.failures + Unknown(answers[..i])))
            && (a.accepted <==> a.lookedUp && answers[i].Some?)
    decreases |answers|
  {
    if i > 0 {
      var s' := Authenticate(max, s, answers[0]).1;
      assert answers[..i][1..] == answers[1..][..i - 1];
      AttemptsClosedForm(max, s', answers[1..], i - 1);
    } else {
      assert answers[..i] == [];
    }
  }

  function FailedLookups(trace: seq<Attempt>): nat {
    if trace == [] then 0 else (if trace[0].lookedUp && !trace[0].accepted then 1 else 0) + FailedLookups(trace[1..])
  }

  /** With a positive limit the failed lookups are as many as the unknown keys, capped at the limit. */
  lemma {:induction false} FailedLookupsCapped(max: nat, s: AuthState, answers: seq<Option<Identity>>)
    requires max > 0 && s.failures <= max
    ensures var total := s.failures + Unknown(answers);
            && s.failures + FailedLookups(Attempts(max, s, answers)) == (if total < max then total else max)
            && After(max, s, answers).failures == (if total < max then total else max)
    decreases |answers|
  {
    if answers != [] {
      FailedLookupsCapped(max, Authenticate(max, s, answers[0]).1, answers[1..]);
    }
  }

  /** Once the limit is reached everything is rejected unasked and the identity never changes again. */
  lemma {:induction false} ExhaustedIsFinal(max: nat, s: AuthState, answers: seq<Option<Identity>>)
    requires !MayTry(max, s.failures)
    ensures After(max, s, answers) == s
    ensures forall i :: 0 <= i < |answers| ==> Attempts(max, s, answers)[i] == Attempt(false, false)
    decreases |answers|
  {
    if answers != [] {
      ExhaustedIsFinal(max, s, answers[1..]);
    }
  }

  /** How many attempts are answered at all: up to and including the one that exhausts the limit. */
  function Answered(max: nat, failures: nat, answers: seq<Option<Identity>>): (n: nat)
    ensures n <= |answers|
    decreases |answers|
  {
    if answers == [] || !MayTry(max, failures) then 0
    else 1 + Answered(max, failures + if answers[0].None? then 1 else 0, answers[1..])
  }

  /** The connection's identity is that of the last known key among the attempts that were answered. */
  lemma {:induction false} IdentityIsLastKnown(max: nat, s: AuthState, answers: seq<Option<Identity>>)
    ensures After(max, s, answers).identity == LastKnown(answers[..Answered(max, s.failures, answers)], s.identity)
    decreases |answers|
  {
    if answers != [] {
      if MayTry(max, s.failures) {
        var n := Answered(max, s.failures, answers);
        assert answers[..n][0] == answers[0] && answers[..n][1..] == answers[1..][..n - 1];
        IdentityIsLastKnown(max, Authenticate(max, s, answers[0]).1, answers[1..]);
      } else {
        ExhaustedIsFinal(max, s, answers);
      }
    }
  }

  /** A limit of zero is none: every key is looked up, and accepted if it is known. */
  lemma {:induction false} ZeroIsUnlimited(s: AuthState, answers: seq<Option<Identity>>, i: nat)
    requires i < |answers|
    ensures Attempts(0, s, answers)[i] == Attempt(true, answers[i].Some?)
    decreases |answers|
  {
    if i > 0 {
      ZeroIsUnlimited(Authenticate(0, s, answers[0]).1, answers[1..], i - 1);
    }
  }
}
