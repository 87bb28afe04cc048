/** The directory that tells callers where a machine's agent listens. */
module Network {
  import opened Options
  import opened Messages

  datatype Endpoint = Endpoint(machineId: string, agentGrpcAddr: string, tailscaleHost: string)

  function EndpointOf(m: Machine): Endpoint {
    Endpoint(m.machineId, m.agentGrpcAddr, m.tailscaleHost)
  }

  /** The directory that holds exactly the given machines. */
  function Project(machines: map<string, Machine>): map<string, Endpoint> {
    map id | id in machines :: EndpointOf(machines[id])
  }

  class StaticNetworkDirectory {
    var endpoints: map<string, Endpoint>

    constructor ()
      ensures endpoints == map[]
    {
      endpoints := map[];
    }

    method UpsertMachine(m: Machine)
      modifies this
      ensures endpoints == old(endpoints)[m.machineId := EndpointOf(m)]
    {
      endpoints := endpoints[m.machineId := Endpoint(m.machineId, m.agentGrpcAddr, m.tailscaleHost)];
    }

    /** In step with the registered machines, the directory finds exactly those, where they last said. */
    method EndpointForMachine(machineId: string) returns (r: Option<Endpoint>)
      ensures r.Some? <==> machineId in endpoints
      ensures r.Some? ==> r.value == endpoints[machineId]
      ensures forall machines: map<string, Machine> ::
                endpoints == Project(machines) ==>
                  && (r.Some? <==> machineId in machines)
                  && (r.Some? ==>
                        var m := machines[machineId];
                        r.value == Endpoint(m.machineId, m.agentGrpcAddr, m.tailscaleHost))
    {
      r := if machineId in endpoints then Some(endpoints[machineId]) else None;
    }
  }
}
