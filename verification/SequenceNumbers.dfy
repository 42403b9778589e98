/**
 Outbound sequence numbers: any number of threads claim them from one atomic counter with a
 load / compare-exchange loop.  Each atomic access is a step, and steps interleave freely.
 */
module SequenceNumbers {
  import opened Wire

  const NO_SEQUENCE_NUMBER: I32 := -0x8000_0000
  const INITIAL_SEQUENCE_NUMBER: I32 := 0
  const MAX_SEQUENCE_NUMBER: I32 := 0x7FFF_FFFF

  type Thread = nat

  /** `held` is what each thread inside the loop last read; `claims` the numbers handed out, in
      the order of the successful exchanges. */
  datatype State = State(counter: I32, held: map<Thread, I32>, claims: seq<I32>)

  /** A load, or one `compare_exchange_weak`, which may fail spuriously. */
  datatype Event = Load(t: Thread) | Exchange(t: Thread, spurious: bool)

  function Claimed(current: I32): I32 {
    if current == NO_SEQUENCE_NUMBER then INITIAL_SEQUENCE_NUMBER else current
  }

  function Next(claimed: I32): I32 {
    if claimed == MAX_SEQUENCE_NUMBER then INITIAL_SEQUENCE_NUMBER else claimed + 1
  }

  function Step(s: State, e: Event): State {
    match e
    case Load(t) =>
      if t in s.held then s else s.(held := s.held[t := s.counter])
    case Exchange(t, spurious) =>
      if t !in s.held then s
      else if s.counter == s.held[t] && !spurious then
        var c := Claimed(s.held[t]);
        State(Next(c), s.held - {t}, s.claims + [c])
      else s.(held := s.held[t := s.counter])
  }

  function Run(start: I32, es: seq<Event>): State {
    if es == [] then State(start, map[], []) else Step(Run(start, es[..|es| - 1]), es[|es| - 1])
  }

  /** The n-th number a counter starting at `start` hands out. */
  function Nth(start: I32, n: nat): I32 {
    if n == 0 then Claimed(start) else Next(Nth(start, n - 1))
  }

  /** Whatever the interleaving, the numbers handed out are the first, second, ... of the counter. */
  lemma {:induction false} ClaimsInSequence(start: I32, es: seq<Event>)
    ensures var s := Run(start, es);
      && (forall i :: 0 <= i < |s.claims| ==> s.claims[i] == Nth(start, i))
      && Claimed(s.counter) == Nth(start, |s.claims|)
  {
    if es == [] {
    } else {
      ClaimsInSequence(start, es[..|es| - 1]);
      NeverReserved(start, |Run(start, es[..|es| - 1]).claims|);
    }
  }

  /** The reserved value is never handed out, whatever the counter held to begin with. */
  lemma {:induction false} NeverReserved(start: I32, n: nat)
    ensures Nth(start, n) != NO_SEQUENCE_NUMBER
    ensures Next(Nth(start, n)) != NO_SEQUENCE_NUMBER
  {
    if n > 0 {
      NeverReserved(start, n - 1);
    }
  }

  /** From a valid counter the numbers count up modulo 2^31. */
  lemma {:induction false} NthModulo(start: I32, n: nat)
    requires 0 <= start
    ensures Nth(start, n) == (start + n) % 0x8000_0000
  {
    if n > 0 {
      NthModulo(start, n - 1);
    }
  }

  /** So every number is valid exactly if the counter started valid or at the reserved value. */
  lemma AllValidIff(start: I32)
    ensures (forall n: nat :: 0 <= Nth(start, n)) <==> (0 <= start || start == NO_SEQUENCE_NUMBER)
  {
    if start == NO_SEQUENCE_NUMBER {
      forall n: nat
        ensures 0 <= Nth(start, n)
      {
        FromReserved(n);
        NthModulo(0, n);
      }
    } else if 0 <= start {
      forall n: nat
        ensures 0 <= Nth(start, n)
      {
        NthModulo(start, n);
      }
    } else {
      assert Nth(start, 0) < 0;
    }
  }

  lemma {:induction false} FromReserved(n: nat)
    ensures Nth(NO_SEQUENCE_NUMBER, n) == Nth(0, n)
  {
    if n > 0 {
      FromReserved(n - 1);
    }
  }

  /** No number is handed out twice within 2^31 consecutive claims, in any interleaving. */
  lemma NoRepeats(start: I32, es: seq<Event>, i: nat, j: nat)
    requires 0 <= start
    requires i < j < |Run(start, es).claims| && j - i < 0x8000_0000
    ensures Run(start, es).claims[i] != Run(start, es).claims[j]
  {
    ClaimsInSequence(start, es);
    NthModulo(start, i);
    NthModulo(start, j);
  }
}
