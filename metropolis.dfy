/**
 * The live part of the sampler in src/fmcmc/metropolis.cpp: construction,
 * the chain set-up of Initialize, and Advance, whose algorithm is disabled
 * text and which therefore returns 0.0.
 */
module Metropolis {
  import opened Wrappers
  import opened Parameters

  /** A point of parameter space kept in a chain. */
  datatype Sample = Sample(values: seq<real>)

  /** A sampled Markov chain: its samples in order. */
  type Chain = seq<Sample>

  /** The proposal function an engine holds: the default Gaussian, or one installed by its user. */
  datatype Proposal = ProposalGaussian | UserProposal(id: nat)

  /** `ps` holds n distinct lists other than `config`, each a copy of it. */
  ghost predicate CopiesOf(ps: seq<ParameterList>, config: ParameterList, n: nat)
    reads ps, config
  {
    && |ps| == n
    && (forall j, k :: 0 <= j < k < n ==> ps[j] != ps[k])
    && forall k :: 0 <= k < n ==>
      && ps[k] != config
      && ps[k].Valid()
      && ps[k].parameters == config.parameters
      && ps[k].correlations == config.correlations
      && ps[k].errorScaling == config.errorScaling
  }

  /** The per-chain copies of the parameter configuration that Initialize pushes, one per beta. */
  method CopyConfigs(config: ParameterList, n: nat) returns (configs: seq<ParameterList>)
    requires config.Valid()
    ensures CopiesOf(configs, config, n)
    ensures forall k :: 0 <= k < |configs| ==> fresh(configs[k])
  {
    configs := [];
    for i := 0 to n
      invariant CopiesOf(configs, config, i)
      invariant forall k :: 0 <= k < i ==> fresh(configs[k])
    {
      var copy := new ParameterList.Copy(config);
      configs := configs + [copy];
    }
  }

  /** n chains, each holding the start point as its only sample. */
  method StartChains(startPoint: Sample, n: nat) returns (chains: seq<Chain>)
    ensures |chains| == n
    ensures forall k :: 0 <= k < n ==> chains[k] == [startPoint]
  {
    chains := seq(n, k => []);
    for i := 0 to n
      invariant |chains| == n
      invariant forall k :: 0 <= k < i ==> chains[k] == [startPoint]
      invariant forall k :: i <= k < n ==> chains[k] == []
    {
      chains := chains[i := chains[i] + [startPoint]];
    }
  }

  class MetropolisHastings {
    var initialErrorScale: real
    var startPointRandomization: real
    /** The inverse temperatures; one chain runs per entry. */
    var betas: seq<real>
    var parameterConfig: ParameterList
    var dynamicParamConfigs: seq<ParameterList>
    var sampledChains: seq<Chain>
    var proposal: Option<Proposal>

    /** A new engine: scales 1.0, a single beta 1.0, an empty parameter list, no chains and no proposal. */
    constructor ()
      ensures initialErrorScale == 1.0 && startPointRandomization == 1.0
      ensures betas == [1.0]
      ensures fresh(parameterConfig) && parameterConfig.Valid()
      ensures parameterConfig.parameters == [] && parameterConfig.correlations == []
      ensures parameterConfig.errorScaling == 1.0
      ensures dynamicParamConfigs == [] && sampledChains == [] && proposal == None
    {
      initialErrorScale := 1.0;
      startPointRandomization := 1.0;
      betas := [1.0];
      parameterConfig := new ParameterList();
      dynamicParamConfigs := [];
      sampledChains := [];
      proposal := None;
    }

    /**
     * Initialize: an empty beta list becomes [1.0]; then one chain and one
     * copy of the parameter configuration per beta, every chain holding the
     * start point as its only sample; a Gaussian proposal is installed when
     * none is set. It always succeeds.
     */
    method Initialize() returns (success: bool)
      requires parameterConfig.Valid()
      modifies this
      ensures success
      ensures betas == if old(betas) == [] then [1.0] else old(betas)
      ensures parameterConfig == old(parameterConfig) && unchanged(parameterConfig)
      ensures initialErrorScale == old(initialErrorScale)
      ensures startPointRandomization == old(startPointRandomization)
      ensures |sampledChains| == |betas| == |dynamicParamConfigs|
      ensures forall i :: 0 <= i < |sampledChains| ==>
        sampledChains[i] == [Sample(parameterConfig.StartValues())]
      ensures forall p :: 0 <= p < |parameterConfig.parameters| ==>
        parameterConfig.parameters[p].IsInsideLimits(parameterConfig.StartValues()[p])
      ensures forall i :: 0 <= i < |dynamicParamConfigs| ==> fresh(dynamicParamConfigs[i])
      ensures CopiesOf(dynamicParamConfigs, parameterConfig, |betas|)
      ensures proposal == if old(proposal) == None then Some(ProposalGaussian) else old(proposal)
    {
      var values := parameterConfig.GetStartValues();
      var startPoint := Sample(values);

      if betas == [] {
        betas := [1.0];
      }

      var nChains := |betas|;
      dynamicParamConfigs := CopyConfigs(parameterConfig, nChains);
      sampledChains := StartChains(startPoint, nChains);

      if proposal == None {
        proposal := Some(ProposalGaussian);
      }

      return true;
    }

    /** Advance: the step itself is disabled in the source; the call returns 0.0 and changes nothing. */
    method Advance() returns (acceptance: real)
      ensures acceptance == 0.0
    {
      return 0.0;
    }
  }
}
