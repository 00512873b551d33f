/** Bounded retry, shared by the consumers: up to a number of tries, stopping at the first that succeeds. */
module Retry {
  /** What `n` tries in a row make of the state; the action is told which try it is, counting from 1. */
  function StateAfter<S>(s: S, act: (S, nat) -> (S, bool), n: nat): S {
    if n == 0 then s else act(StateAfter(s, act, n - 1), n).0
  }

  predicate Succeeds<S>(s: S, act: (S, nat) -> (S, bool), n: nat)
    requires n > 0
  {
    act(StateAfter(s, act, n - 1), n).1
  }

  /** The action runs up to its first success, and at most `attempts` times; every other run is reported. */
  method WithBoundedRetry<S>(s0: S, attempts: int, act: (S, nat) -> (S, bool))
    returns (s: S, succeeded: bool, tries: nat, reports: nat)
    ensures s == StateAfter(s0, act, tries)
    ensures tries <= if attempts < 0 then 0 else attempts
    ensures forall n: nat :: 0 < n < tries ==> !Succeeds(s0, act, n)
    ensures if succeeded then tries > 0 && Succeeds(s0, act, tries) else tries > 0 ==> !Succeeds(s0, act, tries)
    ensures !succeeded ==> tries == if attempts < 0 then 0 else attempts
    ensures reports == if succeeded then tries - 1 else tries
  {
    s, tries, reports := s0, 0, 0;
    while tries < attempts
      invariant tries <= if attempts < 0 then 0 else attempts
      invariant s == StateAfter(s0, act, tries) && reports == tries
      invariant forall n: nat :: 0 < n <= tries ==> !Succeeds(s0, act, n)
    {
      var outcome := act(s, tries + 1);
      s, tries := outcome.0, tries + 1;
      if outcome.1 {
        return s, true, tries, reports;
      }
      reports := reports + 1;
    }
    succeeded := false;
  }
}
