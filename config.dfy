/** The simulation's configurable parameters and their defaults. */
module Configs {

  /** Every integer parameter of a run. The floating-point arrival
      probability is not part of this model. */
  datatype Config = Config(
    numServers: int,
    totalCycles: int,
    initialQueueMultiplier: int,
    minQueuePerServer: int,
    maxQueuePerServer: int,
    scaleCooldownN: int,
    taskTimeMin: int,
    taskTimeMax: int,
    blockedChancePercent: int,
    logVerboseDrops: int,
    logCheckpointInterval: int,
    useColor: int)

  /** The values a configuration starts from before any file is read. */
  const Default := Config(
    numServers := 10,
    totalCycles := 10000,
    initialQueueMultiplier := 100,
    minQueuePerServer := 50,
    maxQueuePerServer := 80,
    scaleCooldownN := 50,
    taskTimeMin := 10,
    taskTimeMax := 100,
    blockedChancePercent := 10,
    logVerboseDrops := 1,
    logCheckpointInterval := 1000,
    useColor := 1)
}
