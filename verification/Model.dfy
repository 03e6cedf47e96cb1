/** Values shared by the fog nodes and the market: identifiers, SLAs, bid
    proposals, and the option type used for the source's missing values. */
module Model {

  datatype Option<+T> = None | Some(value: T)

  // Identifiers are only ever compared for equality.
  type SlaId = nat
  type NodeId = nat
  type K8sNode = nat

  datatype Dimension = Ram | Cpu

  // Memory and CPU of one k8s node or of one SLA.
  datatype Resources = Resources(ram: real, cpu: real) {
    function Of(d: Dimension): real {
      if d.Ram? then ram else cpu
    }

    function Plus(other: Resources): Resources {
      Resources(ram + other.ram, cpu + other.cpu)
    }

    function Minus(other: Resources): Resources {
      Resources(ram - other.ram, cpu - other.cpu)
    }

    predicate NonNegative() {
      0.0 <= ram && 0.0 <= cpu
    }

    // Strictly below in both dimensions, as the satisfiability check demands.
    predicate Below(other: Resources) {
      ram < other.ram && cpu < other.cpu
    }
  }

  const ZERO := Resources(0.0, 0.0)

  datatype Sla = Sla(
    id: SlaId,
    memory: real,
    cpu: real,
    latencyMax: real,
    duration: real,
    maxReplica: nat,
    inputMaxSize: real)
  {
    function Demand(): Resources {
      Resources(memory, cpu)
    }
  }

  datatype BidProposal = BidProposal(nodeId: NodeId, id: nat, bid: real)
}
