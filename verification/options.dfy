/** The constructor's merge of default configuration with the caller's options. */
module Options {
  import opened Wrappers
  import opened Types

  const DefaultAutoRestart := false
  const DefaultAutoRestartLimit := 3
  const DefaultHasExpressInstance := false

  /** No option supplied at all. */
  const Omitted := ClusterOptionsInput(None, None, None, None)

  /**
   * The configuration a cluster runs with: each field the caller supplies,
   * otherwise its default; the default worker count is the host's core count.
   */
  function Resolve(given: ClusterOptionsInput, hostCores: nat): (o: ClusterOptions)
    ensures given.cpus.Some? ==> o.cpus == given.cpus.value
    ensures given.cpus.None? ==> o.cpus == hostCores
    ensures given.autoRestart.Some? ==> o.autoRestart == given.autoRestart.value
    ensures given.autoRestart.None? ==> o.autoRestart == DefaultAutoRestart
    ensures given.autoRestartLimit.Some? ==> o.autoRestartLimit == given.autoRestartLimit.value
    ensures given.autoRestartLimit.None? ==> o.autoRestartLimit == DefaultAutoRestartLimit
    ensures given.hasExpressInstance.Some? ==> o.hasExpressInstance == given.hasExpressInstance.value
    ensures given.hasExpressInstance.None? ==> o.hasExpressInstance == DefaultHasExpressInstance
  {
    ClusterOptions(
      given.cpus.GetOr(hostCores),
      given.autoRestart.GetOr(DefaultAutoRestart),
      given.autoRestartLimit.GetOr(DefaultAutoRestartLimit),
      given.hasExpressInstance.GetOr(DefaultHasExpressInstance))
  }

  /** A resolved configuration, passed back in as the caller's options. */
  function AsInput(o: ClusterOptions): ClusterOptionsInput {
    ClusterOptionsInput(Some(o.cpus), Some(o.autoRestart), Some(o.autoRestartLimit), Some(o.hasExpressInstance))
  }

  /** With no options the cluster forks one worker per core and never restarts. */
  lemma ResolveOmitted(hostCores: nat)
    ensures Resolve(Omitted, hostCores) == ClusterOptions(hostCores, false, 3, false)
  {
  }

  /** Supplying every field leaves no room for a default: the host is irrelevant. */
  lemma ResolveComplete(o: ClusterOptions, hostCores: nat)
    ensures Resolve(AsInput(o), hostCores) == o
  {
  }
}
