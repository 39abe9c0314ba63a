/**
 The reversible-transformation contract that every stage of a flow step
 honours (normalisation, invertible 1x1 convolution, affine coupling), and
 chains of such stages run forwards and backwards.
 */
module Reversible {

  datatype Option<+T> = None | Some(value: T)

  /** A state tensor, flattened to its values. */
  type State = seq<real>

  /** The running log-determinant; None when the caller does not track it. */
  type LogDet = Option<real>

  /**
   A reversible stage. `C` is what the stage is given besides the state:
   the conditioning input for a coupling stage, `()` for the others.
   `fwdLogDet(z, c)` is log|det J| of the forward map at its input z;
   `revLogDet(y, c)` is the same quantity for the forward map at the
   preimage of y, which a reverse call subtracts.
   */
  datatype Stage<!C> = Stage(
    fwd: (State, C) -> State,
    rev: (State, C) -> State,
    fwdLogDet: (State, C) -> real,
    revLogDet: (State, C) -> real)

  /** Adds `delta` to a tracked log-determinant; an absent one stays absent. */
  function Shift(logdet: LogDet, delta: real): LogDet
  {
    match logdet
    case None => None
    case Some(l) => Some(l + delta)
  }

  lemma ShiftShift(logdet: LogDet, a: real, b: real)
    ensures Shift(Shift(logdet, a), b) == Shift(logdet, a + b)
  {
  }

  /** One call `stage(z, logdet=logdet, reverse=reverse)`. */
  function Apply<C>(s: Stage<C>, z: State, c: C, logdet: LogDet, reverse: bool): (State, LogDet)
  {
    if !reverse then (s.fwd(z, c), Shift(logdet, s.fwdLogDet(z, c)))
    else (s.rev(z, c), Shift(logdet, -s.revLogDet(z, c)))
  }

  /** The reverse map undoes the forward map, and subtracts what it added. */
  ghost predicate ReverseUndoesForward<C(!new)>(s: Stage<C>)
  {
    forall z: State, c: C ::
      s.rev(s.fwd(z, c), c) == z && s.revLogDet(s.fwd(z, c), c) == s.fwdLogDet(z, c)
  }

  /** The forward map undoes the reverse map, and adds what it subtracted. */
  ghost predicate ForwardUndoesReverse<C(!new)>(s: Stage<C>)
  {
    forall z: State, c: C ::
      s.fwd(s.rev(z, c), c) == z && s.fwdLogDet(s.rev(z, c), c) == s.revLogDet(z, c)
  }

  ghost predicate Invertible<C(!new)>(s: Stage<C>)
  {
    ReverseUndoesForward(s) && ForwardUndoesReverse(s)
  }

  /** A forward call followed by a reverse call returns the call's own inputs. */
  ghost predicate RoundTripsAt<C>(s: Stage<C>, z: State, c: C, logdet: LogDet)
  {
    var p := Apply(s, z, c, logdet, false);
    Apply(s, p.0, c, p.1, true) == (z, logdet)
  }

  /**
   The stage law above is exactly "reverse(forward(z, ld)) == (z, ld)" for
   every state, context and log-determinant, absent or not.
   */
  lemma ReverseUndoesForwardIff<C(!new)>(s: Stage<C>)
    ensures ReverseUndoesForward(s) <==> forall z: State, c: C, ld: LogDet :: RoundTripsAt(s, z, c, ld)
  {
    if forall z: State, c: C, ld: LogDet :: RoundTripsAt(s, z, c, ld) {
      forall z: State, c: C
        ensures s.rev(s.fwd(z, c), c) == z && s.revLogDet(s.fwd(z, c), c) == s.fwdLogDet(z, c)
      {
        assert RoundTripsAt(s, z, c, Some(0.0));
      }
    }
  }

  /** A reverse call followed by a forward call returns the call's own inputs. */
  ghost predicate RoundTripsFromOutputAt<C>(s: Stage<C>, z: State, c: C, logdet: LogDet)
  {
    var q := Apply(s, z, c, logdet, true);
    Apply(s, q.0, c, q.1, false) == (z, logdet)
  }

  /**
   The other stage law is exactly "forward(reverse(z, ld)) == (z, ld)" for
   every state, context and log-determinant, absent or not.
   */
  lemma ForwardUndoesReverseIff<C(!new)>(s: Stage<C>)
    ensures ForwardUndoesReverse(s) <==> forall z: State, c: C, ld: LogDet :: RoundTripsFromOutputAt(s, z, c, ld)
  {
    if forall z: State, c: C, ld: LogDet :: RoundTripsFromOutputAt(s, z, c, ld) {
      forall z: State, c: C
        ensures s.fwd(s.rev(z, c), c) == z && s.fwdLogDet(s.rev(z, c), c) == s.revLogDet(z, c)
      {
        assert RoundTripsFromOutputAt(s, z, c, Some(0.0));
      }
    }
  }

  lemma StageRoundTrip<C(!new)>(s: Stage<C>, z: State, c: C, logdet: LogDet)
    requires ReverseUndoesForward(s)
    ensures RoundTripsAt(s, z, c, logdet)
  {
    ReverseUndoesForwardIff(s);
  }

  lemma StageRoundTripFromOutput<C(!new)>(s: Stage<C>, z: State, c: C, logdet: LogDet)
    requires ForwardUndoesReverse(s)
    ensures RoundTripsFromOutputAt(s, z, c, logdet)
  {
    ForwardUndoesReverseIff(s);
  }

  /** Runs `stages` forwards, first to last, each on what the previous one returned. */
  function RunForward<C>(stages: seq<Stage<C>>, z: State, c: C, logdet: LogDet): (State, LogDet)
    decreases |stages|
  {
    if stages == [] then (z, logdet)
    else
      var p := RunForward(stages[..|stages| - 1], z, c, logdet);
      Apply(stages[|stages| - 1], p.0, c, p.1, false)
  }

  /** Runs `stages` in reverse mode, last to first. */
  function RunBackward<C>(stages: seq<Stage<C>>, z: State, c: C, logdet: LogDet): (State, LogDet)
    decreases |stages|
  {
    if stages == [] then (z, logdet)
    else
      var q := Apply(stages[|stages| - 1], z, c, logdet, true);
      RunBackward(stages[..|stages| - 1], q.0, c, q.1)
  }

  /** Running `front + back` forwards is running `front`, then `back` on its result. */
  lemma {:induction false} RunForwardAppend<C>(front: seq<Stage<C>>, back: seq<Stage<C>>, z: State, c: C, logdet: LogDet)
    ensures var p := RunForward(front, z, c, logdet);
            RunForward(front + back, z, c, logdet) == RunForward(back, p.0, c, p.1)
    decreases |back|
  {
    if back == [] {
      assert front + back == front;
    } else {
      assert (front + back)[..|front + back| - 1] == front + back[..|back| - 1];
      RunForwardAppend(front, back[..|back| - 1], z, c, logdet);
    }
  }

  /** Running `front + back` backwards is running `back` backwards, then `front`. */
  lemma {:induction false} RunBackwardAppend<C>(front: seq<Stage<C>>, back: seq<Stage<C>>, z: State, c: C, logdet: LogDet)
    ensures var q := RunBackward(back, z, c, logdet);
            RunBackward(front + back, z, c, logdet) == RunBackward(front, q.0, c, q.1)
    decreases |back|
  {
    if back == [] {
      assert front + back == front;
    } else {
      var last := back[|back| - 1];
      var q := Apply(last, z, c, logdet, true);
      assert (front + back)[..|front + back| - 1] == front + back[..|back| - 1];
      RunBackwardAppend(front, back[..|back| - 1], q.0, c, q.1);
    }
  }

  function Sum(xs: seq<real>): real
  {
    if xs == [] then 0.0 else Sum(xs[..|xs| - 1]) + xs[|xs| - 1]
  }

  /** Entry i: what stage i adds to the log-determinant in a forward run. */
  function Contributions<C>(stages: seq<Stage<C>>, z: State, c: C): (deltas: seq<real>)
    ensures |deltas| == |stages|
    decreases |stages|
  {
    if stages == [] then []
    else
      var front := stages[..|stages| - 1];
      Contributions(front, z, c) + [stages[|stages| - 1].fwdLogDet(RunForward(front, z, c, None).0, c)]
  }

  /** Stage i's entry is its log|det J| at the state the stages before it hand to it. */
  lemma {:induction false} ContributionAt<C>(stages: seq<Stage<C>>, z: State, c: C, i: nat)
    requires i < |stages|
    ensures Contributions(stages, z, c)[i] == stages[i].fwdLogDet(RunForward(stages[..i], z, c, None).0, c)
    decreases |stages|
  {
    var front := stages[..|stages| - 1];
    if i < |front| {
      ContributionAt(front, z, c, i);
      assert front[..i] == stages[..i];
    } else {
      assert stages[..i] == front;
    }
  }

  /** Entry i: what stage i subtracts from the log-determinant in a backward run from z. */
  function RevContributions<C>(stages: seq<Stage<C>>, z: State, c: C): (deltas: seq<real>)
    ensures |deltas| == |stages|
    decreases |stages|
  {
    if stages == [] then []
    else
      var last := stages[|stages| - 1];
      RevContributions(stages[..|stages| - 1], last.rev(z, c), c) + [last.revLogDet(z, c)]
  }

  /**
   Stage i's entry is its reverse log|det J| at the state that the stages
   after it, run backwards from z, hand to it.
   */
  lemma {:induction false} RevContributionAt<C>(stages: seq<Stage<C>>, z: State, c: C, i: nat)
    requires i < |stages|
    ensures RevContributions(stages, z, c)[i] == stages[i].revLogDet(RunBackward(stages[i + 1..], z, c, None).0, c)
    decreases |stages|
  {
    var front, last := stages[..|stages| - 1], stages[|stages| - 1];
    if i < |front| {
      RevContributionAt(front, last.rev(z, c), c, i);
      var later := stages[i + 1..];
      assert later[..|later| - 1] == front[i + 1..];
      assert later[|later| - 1] == last;
    } else {
      assert stages[i + 1..] == [];
    }
  }

  lemma SumSnoc(xs: seq<real>, x: real)
    ensures Sum(xs + [x]) == Sum(xs) + x
  {
    assert (xs + [x])[..|xs|] == xs;
  }

  /**
   A forward run adds the sum of its stages' contributions to a tracked
   log-determinant, leaves an absent one absent, and computes the same
   state either way.
   */
  lemma {:induction false} RunForwardLogDet<C>(stages: seq<Stage<C>>, z: State, c: C, logdet: LogDet)
    ensures RunForward(stages, z, c, None).1 == None
    ensures RunForward(stages, z, c, logdet)
         == (RunForward(stages, z, c, None).0, Shift(logdet, Sum(Contributions(stages, z, c))))
    decreases |stages|
  {
    if stages != [] {
      var front, last := stages[..|stages| - 1], stages[|stages| - 1];
      RunForwardLogDet(front, z, c, logdet);
      var before := RunForward(front, z, c, None).0;
      var s := Sum(Contributions(front, z, c));
      var d := last.fwdLogDet(before, c);
      assert RunForward(front, z, c, logdet) == (before, Shift(logdet, s));
      SumSnoc(Contributions(front, z, c), d);
      assert Sum(Contributions(stages, z, c)) == s + d;
      assert Shift(Shift(logdet, s), d) == Shift(logdet, s + d);
    }
  }

  /** A backward run subtracts the sum of its stages' reverse contributions. */
  lemma {:induction false} RunBackwardLogDet<C>(stages: seq<Stage<C>>, z: State, c: C, logdet: LogDet)
    ensures RunBackward(stages, z, c, None).1 == None
    ensures RunBackward(stages, z, c, logdet)
         == (RunBackward(stages, z, c, None).0, Shift(logdet, -Sum(RevContributions(stages, z, c))))
    decreases |stages|
  {
    if stages != [] {
      var front := stages[..|stages| - 1];
      var last := stages[|stages| - 1];
      var q := Apply(last, z, c, logdet, true);
      RunBackwardLogDet(front, q.0, c, q.1);
      RunBackwardLogDet(front, q.0, c, None);
      SumSnoc(RevContributions(front, last.rev(z, c), c), last.revLogDet(z, c));
    }
  }

  /** Running the stages backwards, last first, undoes running them forwards. */
  lemma {:induction false} ChainRoundTrip<C(!new)>(stages: seq<Stage<C>>, z: State, c: C, logdet: LogDet)
    requires forall i | 0 <= i < |stages| :: ReverseUndoesForward(stages[i])
    ensures var p := RunForward(stages, z, c, logdet); RunBackward(stages, p.0, c, p.1) == (z, logdet)
    decreases |stages|
  {
    if stages != [] {
      var front := stages[..|stages| - 1];
      var p := RunForward(front, z, c, logdet);
      StageRoundTrip(stages[|stages| - 1], p.0, c, p.1);
      ChainRoundTrip(front, z, c, logdet);
    }
  }

  /** Running the stages forwards undoes running them backwards. */
  lemma {:induction false} ChainRoundTripFromOutput<C(!new)>(stages: seq<Stage<C>>, z: State, c: C, logdet: LogDet)
    requires forall i | 0 <= i < |stages| :: ForwardUndoesReverse(stages[i])
    ensures var q := RunBackward(stages, z, c, logdet); RunForward(stages, q.0, c, q.1) == (z, logdet)
    decreases |stages|
  {
    if stages != [] {
      var front := stages[..|stages| - 1];
      var last := stages[|stages| - 1];
      var q := Apply(last, z, c, logdet, true);
      ChainRoundTripFromOutput(front, q.0, c, q.1);
      StageRoundTripFromOutput(last, z, c, logdet);
    }
  }
}
