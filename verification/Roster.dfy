/** Layers of the agent architecture and the roster's assignment of ids to them. */
module Roster {
  import opened Base

  datatype Layer = Perception | Analysis | Decision | Coordination | Research | Chatbot

  /** `AgentId(u8)` */
  type AgentId = n: nat | n < 256

  const SIZE: nat := 47

  function NextOperational(layer: Layer): Option<Layer> {
    match layer
    case Perception => Some(Analysis)
    case Analysis => Some(Decision)
    case Decision => Some(Coordination)
    case Coordination => None
    case Research => None
    case Chatbot => None
  }

  predicate IsOperational(layer: Layer) {
    layer.Perception? || layer.Analysis? || layer.Decision? || layer.Coordination?
  }

  function LayerOf(id: nat): Option<Layer> {
    if id == 0 then Some(Chatbot)
    else if 1 <= id <= 16 then Some(Perception)
    else if 17 <= id <= 25 then Some(Analysis)
    else if 26 <= id <= 35 then Some(Decision)
    else if 36 <= id <= 43 then Some(Coordination)
    else if 44 <= id <= 47 then Some(Research)
    else None
  }

  /** How many layers lie below; work only ever moves down. */
  function Rank(layer: Layer): nat {
    match layer
    case Perception => 3
    case Analysis => 2
    case Decision => 1
    case _ => 0
  }
}
