/** The four toxicity levels, and what the gate tells the engine. */
module Toxicity {
  import opened Common

  datatype ToxicityLevel = Calm | Elevated | Toxic | Extreme

  datatype ToxicityState = ToxicityState(
    level: ToxicityLevel,
    vpin: Option<real>,
    percentile: Option<real>,
    warmedUp: bool,
    spreadMultiplier: real,
    sizeMultiplier: real,
    buckets: int)
}
