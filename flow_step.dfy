/**
 One step of a normalising flow: an optional actnorm stage, an optional
 permutation stage (invertible 1x1 convolution) and an affine coupling
 stage, run in that order forwards and in the opposite order in reverse.
 */
module FlowStep {
  import opened Reversible

  /** The conditioning input `u`, which the caller may leave out. */
  type Cond = Option<State>

  /** A Python attribute: never assigned, or assigned a value (which may itself be None). */
  datatype Slot<T> = Unassigned | Assigned(value: T)

  /**
   The constructors of the stage classes ActNorm1d(in_channels, actnorm_scale),
   InvertibleConv1x1(in_channels, LU_decomposed) and
   AffineCoupling(in_channels, cond_channels). Only the coupling stage takes
   the conditioning input.
   */
  datatype Library = Library(
    actNorm1d: (nat, real) -> Stage<()>,
    invConv1x1: (nat, bool) -> Stage<()>,
    affineCoupling: (nat, Option<nat>) -> Stage<Cond>)

  /** The constructor's arguments. `lrVsOthers` is accepted and not used. */
  datatype Config = Config(
    inChannels: nat,
    condChannels: Option<nat>,
    flowActNorm: string,
    flowPermutation: string,
    flowCoupling: string,
    lrVsOthers: bool,
    actnormScale: real,
    luDecomposed: bool)

  /** The constructor's defaults for everything but `in_channels`. */
  function DefaultConfig(inChannels: nat): Config
  {
    Config(inChannels, None, "actNorm1d", "invconv", "Affine", true, 1.0, false)
  }

  /** A constructed step: its three selectors and its three stage attributes. */
  datatype Step = Step(
    flowActNorm: string,
    flowPermutation: string,
    flowCoupling: string,
    actnorm: Slot<Option<Stage<()>>>,
    permute: Slot<Option<Stage<()>>>,
    affine: Slot<Stage<Cond>>)

  /**
   `FlowStep.__init__`: it keeps the three selectors, and builds every stage
   attribute exactly when the selectors are ones it knows. "none" stores None
   in the actnorm or permute slot; an unrecognised selector leaves its
   attribute unassigned.
   */
  function Init(cfg: Config, lib: Library): (step: Step)
    ensures step.flowActNorm == cfg.flowActNorm
    ensures step.flowPermutation == cfg.flowPermutation
    ensures step.flowCoupling == cfg.flowCoupling
    ensures Complete(step) <==> Recognised(cfg)
    ensures step.actnorm == Assigned(None) <==> cfg.flowActNorm == "none"
    ensures step.permute == Assigned(None) <==> cfg.flowPermutation == "none"
  {
    Step(
      cfg.flowActNorm,
      cfg.flowPermutation,
      cfg.flowCoupling,
      if cfg.flowActNorm == "actNorm1d" then Assigned(Some(lib.actNorm1d(cfg.inChannels, cfg.actnormScale)))
      else if cfg.flowActNorm == "none" then Assigned(None)
      else Unassigned,
      if cfg.flowPermutation == "invconv" then Assigned(Some(lib.invConv1x1(cfg.inChannels, cfg.luDecomposed)))
      else if cfg.flowPermutation == "none" then Assigned(None)
      else Unassigned,
      if cfg.flowCoupling == "Affine" then Assigned(lib.affineCoupling(cfg.inChannels, cfg.condChannels))
      else Unassigned)
  }

  /** The selectors `__init__` knows. */
  predicate Recognised(cfg: Config)
  {
    && (cfg.flowActNorm == "actNorm1d" || cfg.flowActNorm == "none")
    && (cfg.flowPermutation == "invconv" || cfg.flowPermutation == "none")
    && cfg.flowCoupling == "Affine"
  }

  /** Every stage attribute was assigned by the constructor. */
  predicate Complete(step: Step)
  {
    step.actnorm.Assigned? && step.permute.Assigned? && step.affine.Assigned?
  }

  /** The three stage attributes `self.actnorm`, `self.permute` and `self.affine`. */
  datatype Attribute = ActNormAttr | PermuteAttr | AffineAttr

  /** The result of a pass: the new state and log-determinant, or the failed attribute access. */
  datatype Outcome = Flowed(z: State, logdet: LogDet) | AttributeError(name: Attribute)

  /** The attributes `normal_flow` reads, in the order it reads them. */
  const ForwardReads: seq<Attribute> := [ActNormAttr, PermuteAttr, AffineAttr]

  /** The attributes `reverse_flow` reads, in the order it reads them. */
  const ReverseReads: seq<Attribute> := [AffineAttr, PermuteAttr, ActNormAttr]

  predicate IsAssigned(step: Step, name: Attribute)
  {
    match name
    case ActNormAttr => step.actnorm.Assigned?
    case PermuteAttr => step.permute.Assigned?
    case AffineAttr => step.affine.Assigned?
  }

  /** The first of `names` whose attribute is unassigned, if there is one. */
  function FirstMissing(step: Step, names: seq<Attribute>): Option<Attribute>
  {
    if names == [] then None
    else if !IsAssigned(step, names[0]) then Some(names[0])
    else FirstMissing(step, names[1..])
  }

  /** Runs an optional stage, or passes `(z, logdet)` through when the slot holds None. */
  function IfPresent(slot: Option<Stage<()>>, z: State, logdet: LogDet, reverse: bool): (State, LogDet)
  {
    match slot
    case None => (z, logdet)
    case Some(s) => Apply(s, z, (), logdet, reverse)
  }

  /**
   `FlowStep.normal_flow`: actnorm, then permute, then coupling (the only one
   given u). It fails exactly when an attribute is missing, naming the first
   missing one in the order it reads them.
   */
  function NormalFlow(step: Step, z: State, u: Cond, logdet: LogDet): (r: Outcome)
    ensures r.AttributeError? <==> !Complete(step)
    ensures r.AttributeError? ==> FirstMissing(step, ForwardReads) == Some(r.name)
  {
    assert ForwardReads[1..] == [PermuteAttr, AffineAttr] && ForwardReads[1..][1..] == [AffineAttr];
    if step.actnorm.Unassigned? then AttributeError(ActNormAttr)
    else
      var (z1, l1) := IfPresent(step.actnorm.value, z, logdet, false);
      if step.permute.Unassigned? then AttributeError(PermuteAttr)
      else
        var (z2, l2) := IfPresent(step.permute.value, z1, l1, false);
        if step.affine.Unassigned? then
          assert FirstMissing(step, ForwardReads[1..]) == FirstMissing(step, [AffineAttr]) == Some(AffineAttr);
          AttributeError(AffineAttr)
        else
          var (z3, l3) := Apply(step.affine.value, z2, u, l2, false);
          Flowed(z3, l3)
  }

  /**
   `FlowStep.reverse_flow`: coupling, then permute, then actnorm, each in
   reverse mode. It fails exactly when an attribute is missing, naming the
   first missing one in the order it reads them.
   */
  function ReverseFlow(step: Step, z: State, u: Cond, logdet: LogDet): (r: Outcome)
    ensures r.AttributeError? <==> !Complete(step)
    ensures r.AttributeError? ==> FirstMissing(step, ReverseReads) == Some(r.name)
  {
    assert ReverseReads[1..] == [PermuteAttr, ActNormAttr] && ReverseReads[1..][1..] == [ActNormAttr];
    if step.affine.Unassigned? then AttributeError(AffineAttr)
    else
      var (z1, l1) := Apply(step.affine.value, z, u, logdet, true);
      if step.permute.Unassigned? then AttributeError(PermuteAttr)
      else
        var (z2, l2) := IfPresent(step.permute.value, z1, l1, true);
        if step.actnorm.Unassigned? then
          assert FirstMissing(step, ReverseReads[1..]) == FirstMissing(step, [ActNormAttr]) == Some(ActNormAttr);
          AttributeError(ActNormAttr)
        else
          var (z3, l3) := IfPresent(step.actnorm.value, z2, l2, true);
          Flowed(z3, l3)
  }

  /**
   `FlowStep.forward`: the direction flag picks the pass, and with it the
   order in which a missing attribute is found.
   */
  function Forward(step: Step, z: State, u: Cond, logdet: LogDet, reverse: bool): (r: Outcome)
    ensures r.AttributeError? <==> !Complete(step)
    ensures r.AttributeError? ==> FirstMissing(step, if reverse then ReverseReads else ForwardReads) == Some(r.name)
  {
    if !reverse then NormalFlow(step, z, u, logdet) else ReverseFlow(step, z, u, logdet)
  }

  // ----- The step as a chain of stages -----

  function Listed(slot: Option<Stage<()>>): seq<Stage<()>>
  {
    match slot
    case None => []
    case Some(s) => [s]
  }

  /** The stages before the coupling, in forward order: those present of actnorm, permute. */
  function PlainStages(step: Step): seq<Stage<()>>
    requires Complete(step)
  {
    Listed(step.actnorm.value) + Listed(step.permute.value)
  }

  /** A slot that holds None, or holds a stage obeying `law`. */
  ghost predicate SlotObeys(slot: Option<Stage<()>>, law: Stage<()> -> bool)
  {
    slot.Some? ==> law(slot.value)
  }

  /** Every stage present in the step reverses its forward pass. */
  ghost predicate StagesReverseUndoForward(step: Step)
    requires Complete(step)
  {
    && SlotObeys(step.actnorm.value, ReverseUndoesForward)
    && SlotObeys(step.permute.value, ReverseUndoesForward)
    && ReverseUndoesForward(step.affine.value)
  }

  /** Every stage present in the step forwards its reverse pass. */
  ghost predicate StagesForwardUndoReverse(step: Step)
    requires Complete(step)
  {
    && SlotObeys(step.actnorm.value, ForwardUndoesReverse)
    && SlotObeys(step.permute.value, ForwardUndoesReverse)
    && ForwardUndoesReverse(step.affine.value)
  }

  /**
   `normal_flow` runs the present plain stages as a chain, first actnorm then
   permute, without the conditioning input, and hands their result to the
   coupling stage together with u.
   */
  lemma NormalFlowIsChain(step: Step, z: State, u: Cond, logdet: LogDet)
    requires Complete(step)
    ensures var p := RunForward(PlainStages(step), z, (), logdet);
            var q := Apply(step.affine.value, p.0, u, p.1, false);
            NormalFlow(step, z, u, logdet) == Flowed(q.0, q.1)
  {
    var an, pm := step.actnorm.value, step.permute.value;
    var p1 := IfPresent(an, z, logdet, false);
    ListedRuns(an, z, logdet);
    ListedRuns(pm, p1.0, p1.1);
    RunForwardAppend(Listed(an), Listed(pm), z, (), logdet);
  }

  /**
   `reverse_flow` runs the coupling stage in reverse with u first, then the
   present plain stages backwards, permute before actnorm, without u.
   */
  lemma ReverseFlowIsChain(step: Step, z: State, u: Cond, logdet: LogDet)
    requires Complete(step)
    ensures var q := Apply(step.affine.value, z, u, logdet, true);
            var p := RunBackward(PlainStages(step), q.0, (), q.1);
            ReverseFlow(step, z, u, logdet) == Flowed(p.0, p.1)
  {
    var an, pm := step.actnorm.value, step.permute.value;
    var q := Apply(step.affine.value, z, u, logdet, true);
    var p1 := IfPresent(pm, q.0, q.1, true);
    ListedRuns(pm, q.0, q.1);
    ListedRuns(an, p1.0, p1.1);
    RunBackwardAppend(Listed(an), Listed(pm), q.0, (), q.1);
  }

  /** A slot's one-element chain runs exactly as the slot does, in both directions. */
  lemma ListedRuns(slot: Option<Stage<()>>, z: State, logdet: LogDet)
    ensures RunForward(Listed(slot), z, (), logdet) == IfPresent(slot, z, logdet, false)
    ensures RunBackward(Listed(slot), z, (), logdet) == IfPresent(slot, z, logdet, true)
  {
    if slot.Some? {
      assert Listed(slot)[..0] == [];
    }
  }

  lemma PlainStagesObey(step: Step)
    requires Complete(step)
    ensures StagesReverseUndoForward(step) ==>
              forall i | 0 <= i < |PlainStages(step)| :: ReverseUndoesForward(PlainStages(step)[i])
    ensures StagesForwardUndoReverse(step) ==>
              forall i | 0 <= i < |PlainStages(step)| :: ForwardUndoesReverse(PlainStages(step)[i])
  {
  }

  /**
   Round trip through `forward`: when every present stage reverses its forward
   pass, `reverse=True` after `reverse=False`, with the same u, gives back the
   input state and log-determinant, whichever stages are present and whether
   or not the log-determinant is tracked.
   */
  lemma RoundTrip(step: Step, z: State, u: Cond, logdet: LogDet)
    requires Complete(step) && StagesReverseUndoForward(step)
    ensures Forward(step, z, u, logdet, false).Flowed?
    ensures var o := Forward(step, z, u, logdet, false);
            Forward(step, o.z, u, o.logdet, true) == Flowed(z, logdet)
  {
    var plain, af := PlainStages(step), step.affine.value;
    NormalFlowIsChain(step, z, u, logdet);
    var p := RunForward(plain, z, (), logdet);
    var q := Apply(af, p.0, u, p.1, false);
    ReverseFlowIsChain(step, q.0, u, q.1);
    StageRoundTrip(af, p.0, u, p.1);
    PlainStagesObey(step);
    ChainRoundTrip(plain, z, (), logdet);
  }

  /**
   The other round trip: `reverse=False` after `reverse=True` gives back the
   input, when every present stage forwards its reverse pass.
   */
  lemma RoundTripFromLatent(step: Step, z: State, u: Cond, logdet: LogDet)
    requires Complete(step) && StagesForwardUndoReverse(step)
    ensures Forward(step, z, u, logdet, true).Flowed?
    ensures var o := Forward(step, z, u, logdet, true);
            Forward(step, o.z, u, o.logdet, false) == Flowed(z, logdet)
  {
    var plain, af := PlainStages(step), step.affine.value;
    ReverseFlowIsChain(step, z, u, logdet);
    var q := Apply(af, z, u, logdet, true);
    var p := RunBackward(plain, q.0, (), q.1);
    NormalFlowIsChain(step, p.0, u, p.1);
    PlainStagesObey(step);
    ChainRoundTripFromOutput(plain, q.0, (), q.1);
    StageRoundTripFromOutput(af, z, u, logdet);
  }

  /** What each present stage adds, in stage order, in `normal_flow` from z. */
  function StepContributions(step: Step, z: State, u: Cond): seq<real>
    requires Complete(step)
  {
    var plain := PlainStages(step);
    Contributions(plain, z, ()) +
      [step.affine.value.fwdLogDet(RunForward(plain, z, (), None).0, u)]
  }

  /** What each present stage subtracts, in stage order, in `reverse_flow` from z. */
  function StepRevContributions(step: Step, z: State, u: Cond): seq<real>
    requires Complete(step)
  {
    var af := step.affine.value;
    RevContributions(PlainStages(step), af.rev(z, u), ()) + [af.revLogDet(z, u)]
  }

  /**
   `normal_flow` adds the sum of the present stages' contributions to a
   tracked log-determinant, keeps an absent one absent, and computes the same
   state whether or not it is tracked.
   */
  lemma NormalFlowLogDet(step: Step, z: State, u: Cond, logdet: LogDet)
    requires Complete(step)
    ensures NormalFlow(step, z, u, None).Flowed? && NormalFlow(step, z, u, None).logdet == None
    ensures NormalFlow(step, z, u, logdet)
         == Flowed(NormalFlow(step, z, u, None).z, Shift(logdet, Sum(StepContributions(step, z, u))))
  {
    var plain, af := PlainStages(step), step.affine.value;
    NormalFlowIsChain(step, z, u, logdet);
    NormalFlowIsChain(step, z, u, None);
    RunForwardLogDet(plain, z, (), logdet);
    var zp := RunForward(plain, z, (), None).0;
    var s := Sum(Contributions(plain, z, ()));
    var d := af.fwdLogDet(zp, u);
    assert RunForward(plain, z, (), logdet) == (zp, Shift(logdet, s));
    SumSnoc(Contributions(plain, z, ()), d);
    assert Sum(StepContributions(step, z, u)) == s + d;
    assert Shift(Shift(logdet, s), d) == Shift(logdet, s + d);
  }

  /** `reverse_flow` shifts logdet by the step's whole reverse sum, after a state that does not depend on logdet. */
  lemma ReverseFlowThreads(step: Step, z: State, u: Cond, logdet: LogDet)
    requires Complete(step)
    ensures var z1 := step.affine.value.rev(z, u);
            ReverseFlow(step, z, u, logdet)
              == Flowed(RunBackward(PlainStages(step), z1, (), None).0, Shift(logdet, -Sum(StepRevContributions(step, z, u))))
  {
    var plain, af := PlainStages(step), step.affine.value;
    ReverseFlowIsChain(step, z, u, logdet);
    CouplingThenBackward(plain, af, z, u, logdet);
    StepRevSum(step, z, u);
  }

  /**
   A reverse coupling call followed by a backward run of `plain` shifts logdet
   by minus the coupling's amount and the chain's sum together.
   */
  lemma CouplingThenBackward(plain: seq<Stage<()>>, af: Stage<Cond>, z: State, u: Cond, logdet: LogDet)
    ensures var q := Apply(af, z, u, logdet, true);
            var z1 := af.rev(z, u);
            RunBackward(plain, q.0, (), q.1)
              == (RunBackward(plain, z1, (), None).0, Shift(logdet, -(Sum(RevContributions(plain, z1, ())) + af.revLogDet(z, u))))
  {
    var z1, d := af.rev(z, u), af.revLogDet(z, u);
    RunBackwardLogDet(plain, z1, (), Shift(logdet, -d));
    ShiftShift(logdet, -d, -Sum(RevContributions(plain, z1, ())));
  }

  /**
   `reverse_flow` subtracts the sum of the present stages' reverse
   contributions, keeps an absent log-determinant absent, and computes the
   same state whether or not it is tracked.
   */
  lemma ReverseFlowLogDet(step: Step, z: State, u: Cond, logdet: LogDet)
    requires Complete(step)
    ensures ReverseFlow(step, z, u, None).Flowed? && ReverseFlow(step, z, u, None).logdet == None
    ensures ReverseFlow(step, z, u, logdet)
         == Flowed(ReverseFlow(step, z, u, None).z, Shift(logdet, -Sum(StepRevContributions(step, z, u))))
  {
    ReverseFlowThreads(step, z, u, None);
    ReverseFlowThreads(step, z, u, logdet);
  }

  /** The reverse contributions of a step sum to the plain stages' sum plus the coupling's amount. */
  lemma StepRevSum(step: Step, z: State, u: Cond)
    requires Complete(step)
    ensures var af := step.affine.value;
            Sum(StepRevContributions(step, z, u))
              == Sum(RevContributions(PlainStages(step), af.rev(z, u), ())) + af.revLogDet(z, u)
  {
    var af := step.affine.value;
    SumSnoc(RevContributions(PlainStages(step), af.rev(z, u), ()), af.revLogDet(z, u));
  }

  /**
   Direction symmetry of a step: when every stage reverses its forward pass,
   the reverse contributions taken at the forward output sum to the forward
   contributions.
   */
  lemma ReverseSumMatchesForward(step: Step, z: State, u: Cond)
    requires Complete(step) && StagesReverseUndoForward(step)
    ensures Sum(StepRevContributions(step, NormalFlow(step, z, u, Some(0.0)).z, u)) == Sum(StepContributions(step, z, u))
  {
    NormalFlowLogDet(step, z, u, Some(0.0));
    var o := NormalFlow(step, z, u, Some(0.0));
    ReverseFlowLogDet(step, o.z, u, o.logdet);
    RoundTrip(step, z, u, Some(0.0));
  }

  // ----- Construction -----

  /**
   Each recognised selector builds its stage from the constructor's own
   arguments: `in_channels` and `actnorm_scale` for actnorm, `in_channels` and
   `LU_decomposed` for the permutation, `in_channels` and `cond_channels` for
   the coupling.
   */
  lemma KnownSelectorsBuildStages(cfg: Config, lib: Library)
    ensures var step := Init(cfg, lib);
      && (cfg.flowActNorm == "actNorm1d" ==>
            step.actnorm == Assigned(Some(lib.actNorm1d(cfg.inChannels, cfg.actnormScale))))
      && (cfg.flowPermutation == "invconv" ==>
            step.permute == Assigned(Some(lib.invConv1x1(cfg.inChannels, cfg.luDecomposed))))
      && (cfg.flowCoupling == "Affine" ==>
            step.affine == Assigned(lib.affineCoupling(cfg.inChannels, cfg.condChannels)))
  {
  }

  /** With the defaults, all three stages are built. */
  lemma DefaultsBuildAllStages(inChannels: nat, lib: Library)
    ensures var step := Init(DefaultConfig(inChannels), lib);
      && step.actnorm == Assigned(Some(lib.actNorm1d(inChannels, 1.0)))
      && step.permute == Assigned(Some(lib.invConv1x1(inChannels, false)))
      && step.affine == Assigned(lib.affineCoupling(inChannels, None))
  {
    KnownSelectorsBuildStages(DefaultConfig(inChannels), lib);
  }

  /** A constructed step runs in either direction exactly when its selectors were recognised. */
  lemma InitRunsIffRecognised(cfg: Config, lib: Library, z: State, u: Cond, logdet: LogDet, reverse: bool)
    ensures Forward(Init(cfg, lib), z, u, logdet, reverse).Flowed? <==> Recognised(cfg)
  {
  }

  /** With actnorm and permute both "none", the step is the coupling stage alone, in both directions. */
  lemma CouplingOnly(cfg: Config, lib: Library, z: State, u: Cond, logdet: LogDet)
    requires cfg.flowActNorm == "none" && cfg.flowPermutation == "none" && cfg.flowCoupling == "Affine"
    ensures var af := lib.affineCoupling(cfg.inChannels, cfg.condChannels);
      && NormalFlow(Init(cfg, lib), z, u, logdet) == Flowed(af.fwd(z, u), Shift(logdet, af.fwdLogDet(z, u)))
      && ReverseFlow(Init(cfg, lib), z, u, logdet) == Flowed(af.rev(z, u), Shift(logdet, -af.revLogDet(z, u)))
  {
  }
}
