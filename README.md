# Flow step of the normalising-flow surrogate

This project models `FlowStep`, the invertible block from which the
normalising-flow surrogate of the yeast-polarisation simulator is stacked.
A step holds an optional actnorm stage, an optional permutation stage
(an invertible 1x1 convolution) and an affine-coupling stage. All three are
chosen once, by string selectors, in `__init__`. `forward(z, u, logdet,
reverse)` dispatches to `normal_flow`, which runs actnorm → permute →
coupling, or to `reverse_flow`, which runs coupling → permute → actnorm in
reverse mode. Each stage call passes the state `z` and the log-determinant
accumulator `logdet` on to the next one. Only the coupling stage receives
the conditioning input `u`.

The model is pure: the step is an immutable datatype and the passes are
functions.

- `Reversible` (reversible.dfy) defines the contract every stage meets. A
  `Stage<C>` is a forward map, a reverse map and their log|det J|
  contributions, over a flattened state `seq<real>` and a context `C`.
  `Apply` is one stage call. The log-determinant is `Option<real>`, with
  `None` for an untracked one. The module also defines the inverse laws
  `ReverseUndoesForward` and `ForwardUndoesReverse`. `RunForward` and
  `RunBackward` are an independent reference for the step: a chain of
  stages run first-to-last, or last-to-first in reverse mode.
- `FlowStep` (flow_step.dfy) models `__init__`, `forward`, `normal_flow`
  and `reverse_flow`. Actnorm and permute are `Stage<()>`, so by their type
  they cannot see `u`. The coupling stage is `Stage<Cond>`, where `Cond` is
  the optional conditioning state. `Slot` models a Python attribute that an
  unrecognised selector left unassigned. The three stage classes, which
  are not part of this model, enter as a `Library` of constructors.
- `ChannelAffine` (channel_affine.dfy) is a reference normalisation stage.
  Each channel has its own record of scale, bias and log|scale|. Forward
  subtracts the channel's bias and then multiplies by its nonzero scale.
  The log-determinant contribution is the sum, over the values of the
  state, of their channel's log|scale|. That per-channel amount is an
  uninterpreted real, so no logarithm appears. The stage is proved to meet
  both inverse laws.
- `ReferenceStep` (reference_step.dfy) builds a default step whose actnorm
  and permute are reference stages and whose coupling is the identity. It
  shows such a step meets the round-trip hypotheses.

An unrecognised selector does not fail construction. `__init__` leaves
`self.actnorm`, `self.permute` or `self.affine` unset, and the first pass
that reads the missing attribute raises `AttributeError`. The model returns
`AttributeError(name)` for the first missing attribute, where `name` is one
of the three `Attribute` constants. The order is the one in which the pass
reads them: actnorm, permute, affine in `normal_flow`, and affine, permute,
actnorm in `reverse_flow`. The step performs no shape or conditioning
checks, so none are modelled.

## Model

| member | source | states |
|---|---|---|
| `FlowStep.Init` | NF/FlowStep.py:7-28 | `__init__` keeps the three selectors. It assigns all three stage attributes exactly when the selectors are recognised: `'actNorm1d'` or `"none"`, `'invconv'` or `"none"`, and `'Affine'`. The actnorm and permute slots hold None exactly when their selector is `"none"`. |
| `FlowStep.Forward` | NF/FlowStep.py:30-34 | `forward` fails exactly when some stage attribute is unassigned. The direction flag decides in which order a missing attribute is found: `ReverseReads` when `reverse` is set, `ForwardReads` otherwise. Its body hands `reverse=False` to `NormalFlow` and `reverse=True` to `ReverseFlow`. `RoundTrip`, `RoundTripFromLatent` and `InitRunsIffRecognised` are stated over `Forward`. |
| `FlowStep.NormalFlow` | NF/FlowStep.py:36-45 | `normal_flow` fails exactly when some stage attribute is unassigned. It then names the first missing one of actnorm, permute, affine, in the order lines 38, 41 and 44 read them. |
| `FlowStep.ReverseFlow` | NF/FlowStep.py:47-56 | `reverse_flow` fails exactly when some stage attribute is unassigned. It then names the first missing one of affine, permute, actnorm, in the order lines 49, 51 and 54 read them. |
| `FlowStep.KnownSelectorsBuildStages` | NF/FlowStep.py:15-28 | For every configuration, a recognised selector builds its stage from the constructor's own arguments. `'actNorm1d'` gives `ActNorm1d(in_channels, actnorm_scale)`, `'invconv'` gives `InvertibleConv1x1(in_channels, LU_decomposed)`, and `'Affine'` gives `AffineCoupling(in_channels, cond_channels)`. |
| `FlowStep.DefaultsBuildAllStages` | NF/FlowStep.py:7-28 | With the default selectors `'actNorm1d'`, `'invconv'`, `'Affine'`, scale 1.0, LU off and no conditioning channels, all three stages are built. |
| `FlowStep.InitRunsIffRecognised` | NF/FlowStep.py:15-34 | A step built by `__init__` runs in either direction exactly when all three selectors are recognised. |
| `FlowStep.NormalFlowIsChain` | NF/FlowStep.py:36-45 | `normal_flow` equals running the present plain stages as a chain, actnorm before permute, each on the previous `(z, logdet)` and without `u`. The coupling stage then runs forwards on that result with `u`. |
| `FlowStep.ReverseFlowIsChain` | NF/FlowStep.py:47-56 | `reverse_flow` runs the coupling stage in reverse with `u` first. It then runs the present plain stages backwards, permute before actnorm, in reverse mode and without `u`. |
| `FlowStep.RoundTrip` | NF/FlowStep.py:30-56 | Suppose every present stage's reverse undoes its forward. Then `forward(reverse=True)` after `forward(reverse=False)`, with the same `u`, returns the original state and log-determinant. This holds for every combination of present or absent actnorm and permute, and for an absent log-determinant. |
| `FlowStep.RoundTripFromLatent` | NF/FlowStep.py:30-56 | Suppose every present stage's forward undoes its reverse. Then `forward(reverse=False)` after `forward(reverse=True)` returns the original state and log-determinant. |
| `FlowStep.NormalFlowLogDet` | NF/FlowStep.py:36-45 | `normal_flow` adds to a tracked log-determinant the sum of the present stages' contributions. An absent log-determinant stays absent. The state is the same whether or not it is tracked. |
| `FlowStep.ReverseFlowLogDet` | NF/FlowStep.py:47-56 | `reverse_flow` subtracts the sum of the present stages' reverse contributions. An absent log-determinant stays absent. The state is the same whether or not it is tracked. |
| `FlowStep.ReverseSumMatchesForward` | NF/FlowStep.py:36-56 | When every present stage reverses its forward pass, the reverse pass's log-determinant contributions, taken at the forward output, sum to the forward pass's contributions. So the reverse pass subtracts exactly what the forward pass added. |
| `FlowStep.CouplingOnly` | NF/FlowStep.py:17-56 | With actnorm and permute both `"none"`, each pass equals one call of the coupling stage in that direction. |
| `Reversible.ReverseUndoesForwardIff` | NF/FlowStep.py:39-55 | The field-level law `ReverseUndoesForward` holds exactly when a reverse call after a forward call returns `(z, logdet)` for every state, context and logdet, tracked or not. Both directions of the iff are proved. |
| `Reversible.ForwardUndoesReverseIff` | NF/FlowStep.py:39-55 | The field-level law `ForwardUndoesReverse` holds exactly when a forward call after a reverse call returns `(z, logdet)` for every state, context and logdet. Both directions of the iff are proved. |
| `Reversible.StageRoundTrip` | NF/FlowStep.py:39-55 | A stage obeying the inverse law round-trips one call, on the state and on the log-determinant. |
| `Reversible.StageRoundTripFromOutput` | NF/FlowStep.py:39-55 | A stage whose forward undoes its reverse round-trips one reverse call. |
| `Reversible.ChainRoundTrip` | NF/FlowStep.py:36-56 | Running any chain of invertible stages backwards, last first, undoes running it forwards, because the reverse order mirrors the forward order. |
| `Reversible.ChainRoundTripFromOutput` | NF/FlowStep.py:36-56 | Running the chain forwards undoes running it backwards. |
| `Reversible.RunForwardLogDet` | NF/FlowStep.py:36-45 | A forward chain adds the sum of its stages' contributions to a tracked log-determinant and passes `None` through unchanged. The state does not depend on the log-determinant. |
| `Reversible.RunBackwardLogDet` | NF/FlowStep.py:47-56 | A backward chain subtracts the sum of its stages' reverse contributions and passes `None` through unchanged. |
| `Reversible.ContributionAt` | NF/FlowStep.py:39-44 | Entry i is stage i's forward log-determinant contribution, evaluated at the state that the stages before it hand to it. |
| `Reversible.RevContributionAt` | NF/FlowStep.py:49-55 | Entry i of the reverse contributions is stage i's reverse log-determinant contribution, evaluated at the state that the stages after it, run backwards, hand to it. |
| `ChannelAffine.ReferenceInvertible` | NF/FlowStep.py:16 | A stand-in for ActNorm1d: each channel's values have its bias subtracted and are then multiplied by its nonzero scale. For all parameters it meets both inverse laws of the stage contract, on the state and on the log-determinant. |
| `ReferenceStep.DefaultStepRoundTrips` | NF/FlowStep.py:7-56 | A step that `__init__` builds with the default selectors, from reference stages for actnorm and permute and an identity coupling, assigns every stage attribute and meets both per-stage inverse laws. So `forward(reverse=True)` after `forward(reverse=False)` returns the input state and log-determinant. |

## Left out

- How each stage treats the log-determinant is assumed, not derived. `Apply` fixes it for every stage. A tracked value gets the stage's contribution added going forwards and subtracted in reverse. `None` stays `None`. The output state never depends on `logdet`. The stage classes are not part of this model, so these are hypotheses about ActNorm1d, InvertibleConv1x1 and AffineCoupling. What the lemmas prove is the step's own part: it threads `(z, logdet)` from stage to stage and never inspects or alters it in between.
- Stage internals: the ActNorm1d scale and bias, the 1x1-convolution matrix and its LU determinant, and the coupling network. These classes are not part of this model. Stages are abstract `Stage` values whose inverse laws are stated as preconditions. `ChannelAffine` is only a reference instance.
- ActNorm's one-time data-dependent initialisation on the first forward call is stateful inside the stage, so it is not modelled. Every stage is a pure function of its inputs.
- Tensor shapes (batch, channels, length) are not modelled. The state is a flat `seq<real>`. The step itself checks no shapes.
- Floating point: values and log-determinants are exact reals, so the round trips are exact rather than within a tolerance. No `log`/`exp` appears.
- `LRvsothers` is accepted by `__init__` and never used. It is kept in `Config` only.
- PyTorch module machinery (`nn.Module`, `super().__init__()`, `__call__` hooks, parameter registration) is not modelled.
- Work done before a failing attribute read is not modelled. For example, a reverse pass runs the coupling stage before it reads a missing actnorm. Since the model treats every stage as pure (see the initialisation line above), that work is not observable in the model.
- Stacking steps into a flow network, and the additivity of two steps' log-determinants, belong to the network. That code is not part of this model. The chain lemmas in `Reversible` hold for chains of any length.
- The seeded numeric round-trip scenario is not modelled. The round-trip lemmas cover every input instead.
- The evaluation scripts, the data loader and the residual block are glue around neural networks, file I/O and floating-point metrics, so they are not modelled.
