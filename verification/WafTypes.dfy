/** The modes and actions of src/config/server.rs and src/decision.rs. */
module WafTypes {
  datatype WafMode = Off | Monitor | Block | Strict {
    function Rank(): nat {
      match this
      case Off => 0
      case Monitor => 1
      case Block => 2
      case Strict => 3
    }
  }

  datatype WafAction = Allow | Monitor | Block {
    function Rank(): nat {
      match this
      case Allow => 0
      case Monitor => 1
      case Block => 2
    }
  }

  datatype BehaviorMode = Off | Monitor | Block
}
