/**
 A reference normalisation stage that meets the reversible-stage contract:
 a per-channel affine map with nonzero scale. The state is flattened
 position by position, so with C channels the value at index k belongs to
 channel k % C. Forward subtracts the channel's bias and then multiplies by
 its scale; reverse divides by the scale and then adds the bias back.
 */
module ChannelAffine {
  import opened Reversible

  type NonZero = x: real | x != 0.0 witness 1.0

  /**
   One channel's parameters. `logAbsScale` stands for log|scale|; the stage
   adds it once for every value of the state that belongs to the channel.
   */
  datatype Channel = Channel(scale: NonZero, bias: real, logAbsScale: real)

  /** The parameters of C = |p| channels; with no channels the stage is the identity. */
  type Params = seq<Channel>

  /** The channel that the value at flat index k belongs to. */
  function ChannelAt(p: Params, k: nat): Channel
  {
    if |p| == 0 then Channel(1.0, 0.0, 0.0) else p[k % |p|]
  }

  function Fwd(p: Params, z: State): State
  {
    seq(|z|, k requires 0 <= k < |z| => (z[k] - ChannelAt(p, k).bias) * ChannelAt(p, k).scale)
  }

  function Rev(p: Params, y: State): State
  {
    seq(|y|, k requires 0 <= k < |y| => y[k] / ChannelAt(p, k).scale + ChannelAt(p, k).bias)
  }

  /** log|det J| for a state of n values: the sum of log|scale| of each value's channel. */
  function LogDetOf(p: Params, n: nat): real
  {
    if n == 0 then 0.0 else LogDetOf(p, n - 1) + ChannelAt(p, n - 1).logAbsScale
  }

  /** The parameters as a stage; it takes no conditioning input. */
  function AsStage(p: Params): Stage<()>
  {
    Stage(
      (z: State, c: ()) => Fwd(p, z),
      (y: State, c: ()) => Rev(p, y),
      (z: State, c: ()) => LogDetOf(p, |z|),
      (y: State, c: ()) => LogDetOf(p, |y|))
  }

  lemma MulThenDiv(x: real, a: real)
    requires a != 0.0
    ensures (x * a) / a == x
  {
  }

  lemma DivThenMul(x: real, a: real)
    requires a != 0.0
    ensures (x / a) * a == x
  {
  }

  lemma RevAfterFwd(p: Params, z: State)
    ensures Rev(p, Fwd(p, z)) == z
  {
    var y := Fwd(p, z);
    forall k | 0 <= k < |z|
      ensures Rev(p, y)[k] == z[k]
    {
      var a, b := ChannelAt(p, k).scale, ChannelAt(p, k).bias;
      assert y[k] == (z[k] - b) * a;
      assert Rev(p, y)[k] == y[k] / a + b;
      MulThenDiv(z[k] - b, a);
    }
  }

  lemma FwdAfterRev(p: Params, y: State)
    ensures Fwd(p, Rev(p, y)) == y
  {
    var z := Rev(p, y);
    forall k | 0 <= k < |y|
      ensures Fwd(p, z)[k] == y[k]
    {
      var a, b := ChannelAt(p, k).scale, ChannelAt(p, k).bias;
      assert z[k] == y[k] / a + b;
      assert Fwd(p, z)[k] == (z[k] - b) * a;
      DivThenMul(y[k], a);
      assert y[k] / a + b - b == y[k] / a;
    }
  }

  /**
   For every choice of parameters the reference stage obeys both halves of
   the reversible-stage contract, on the state and on the log-determinant.
   */
  lemma ReferenceInvertible(p: Params)
    ensures Invertible(AsStage(p))
  {
    var s := AsStage(p);
    forall z: State, c: ()
      ensures s.rev(s.fwd(z, c), c) == z && s.revLogDet(s.fwd(z, c), c) == s.fwdLogDet(z, c)
    {
      RevAfterFwd(p, z);
    }
    forall y: State, c: ()
      ensures s.fwd(s.rev(y, c), c) == y && s.fwdLogDet(s.rev(y, c), c) == s.revLogDet(y, c)
    {
      FwdAfterRev(p, y);
    }
  }
}
