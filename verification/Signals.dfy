/** What a strategy answers (src/strategy/state.rs, PreSignal). The reason string is not modelled. */
module Signals {
  import opened Positions

  datatype PreSignal = PreSignal(
    symbol: string,
    strategy: string,
    side: Side,
    entry: real,
    stop: real,
    target: real,
    taConfidence: nat)
}
