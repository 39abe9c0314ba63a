/**
 A flow step assembled from the reference normalisation stage: it shows that
 the reference stage fits the actnorm and permutation slots and that a step
 built by the constructor can meet the round-trip hypotheses.
 */
module ReferenceStep {
  import opened Reversible
  import ChannelAffine
  import FlowStep

  /** The coupling stage that leaves the state alone; it contributes nothing to log|det J|. */
  function IdentityCoupling(): Stage<FlowStep.Cond>
  {
    Stage(
      (z: State, u: FlowStep.Cond) => z,
      (y: State, u: FlowStep.Cond) => y,
      (z: State, u: FlowStep.Cond) => 0.0,
      (y: State, u: FlowStep.Cond) => 0.0)
  }

  /** Stage classes whose actnorm and permutation are reference stages with parameters p and q. */
  function ReferenceLibrary(p: ChannelAffine.Params, q: ChannelAffine.Params): FlowStep.Library
  {
    FlowStep.Library(
      (n: nat, scale: real) => ChannelAffine.AsStage(p),
      (n: nat, lu: bool) => ChannelAffine.AsStage(q),
      (n: nat, cond: Option<nat>) => IdentityCoupling())
  }

  /**
   A step built with the defaults from reference stages has every stage
   attribute, meets both per-stage inverse laws, and so round-trips through
   `forward` in both orders.
   */
  lemma DefaultStepRoundTrips(inChannels: nat, p: ChannelAffine.Params, q: ChannelAffine.Params, z: State, u: FlowStep.Cond, logdet: LogDet)
    ensures var step := FlowStep.Init(FlowStep.DefaultConfig(inChannels), ReferenceLibrary(p, q));
      && FlowStep.Complete(step)
      && FlowStep.StagesReverseUndoForward(step)
      && FlowStep.StagesForwardUndoReverse(step)
    ensures var step := FlowStep.Init(FlowStep.DefaultConfig(inChannels), ReferenceLibrary(p, q));
      var o := FlowStep.Forward(step, z, u, logdet, false);
      o.Flowed? && FlowStep.Forward(step, o.z, u, o.logdet, true) == FlowStep.Flowed(z, logdet)
  {
    var step := FlowStep.Init(FlowStep.DefaultConfig(inChannels), ReferenceLibrary(p, q));
    ChannelAffine.ReferenceInvertible(p);
    ChannelAffine.ReferenceInvertible(q);
    assert step.actnorm.value == Some(ChannelAffine.AsStage(p));
    assert step.permute.value == Some(ChannelAffine.AsStage(q));
    FlowStep.RoundTrip(step, z, u, logdet);
  }
}
