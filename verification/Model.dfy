/** The objects the controller reads and writes, and the builders that make them. */
module Model {
  import opened Wrappers
  import opened Names

  // ------------------------------------------------------------ application cluster

  datatype ServicePort = ServicePort(name: string, port: int, targetPort: int, nodePort: int)

  /** The controller reads the first port of every source service. */
  type SourcePorts = p: seq<ServicePort> | p != [] witness [ServicePort("", 0, 0, 0)]

  datatype Subset = Subset(addresses: seq<string>, ports: seq<int>)

  /** The endpoints and the service that carry a ServiceRoute's own name. */
  datatype Backend = Backend(subsets: seq<Subset>, ports: SourcePorts)

  /** What one sync reads about its key on the application cluster. The backend is None when
      the source endpoints or the source service is missing. */
  datatype Source =
    | Unreadable
    | Absent
    | Present(route: string, status: string, backend: Option<Backend>)

  // ------------------------------------------------------------------ Istio cluster

  datatype IstioInfo = IstioInfo(suffix: string, namespace: string, gateway: string, http: string, https: string)

  datatype VirtualService = VirtualService(gateways: seq<string>, hosts: seq<string>, destination: string, port: int)

  datatype DestinationRule = DestinationRule(host: string)

  datatype Server = Server(portName: string, hosts: seq<string>)

  /** The stores of the Istio namespace. Records map a record name to the route it holds;
      the four kinds are keyed by route name. */
  datatype Istio = Istio(
    records: map<string, string>,
    endpoints: map<string, seq<Subset>>,
    services: map<string, seq<ServicePort>>,
    virtualServices: map<string, VirtualService>,
    destinationRules: map<string, DestinationRule>,
    gateway: Option<seq<Server>>)

  // -------------------------------------------------------------------- API outcomes

  /** A create fails on an existing name and then changes nothing. */
  function Created<V>(m: map<string, V>, name: string, v: V): map<string, V> {
    if name in m then m else m[name := v]
  }

  /** An update fails on a missing name and then changes nothing. */
  function Updated<V>(m: map<string, V>, name: string, v: V): map<string, V> {
    if name in m then m[name := v] else m
  }

  /** A delete of a missing name changes nothing. */
  function Deleted<V>(m: map<string, V>, name: string): map<string, V> {
    m - {name}
  }

  // ------------------------------------------------------------------------ builders

  function ZeroNodePorts(ports: seq<ServicePort>): (zeroed: seq<ServicePort>)
    ensures |zeroed| == |ports|
  {
    seq(|ports|, i requires 0 <= i < |ports| => ports[i].(nodePort := 0))
  }

  /** The ports sent are the source's, field by field, except that no node port is asked for. */
  ghost predicate CarriesPorts(sent: seq<ServicePort>, ports: seq<ServicePort>) {
    && |sent| == |ports|
    && forall i :: 0 <= i < |sent| ==>
         sent[i].nodePort == 0 && sent[i].name == ports[i].name
         && sent[i].port == ports[i].port && sent[i].targetPort == ports[i].targetPort
  }

  function LocalHost(info: IstioInfo, route: string): string {
    route + "." + info.namespace + ".svc.cluster.local"
  }

  /** The source port is a signed 32-bit number; the destination port is its unsigned cast. */
  function NewVirtualService(info: IstioInfo, route: string, ports: SourcePorts): VirtualService {
    VirtualService([info.gateway, "mesh"], [Fqdn(route, info.suffix)],
                   LocalHost(info, route), ports[0].port % 0x1_0000_0000)
  }

  function NewDestinationRule(info: IstioInfo, route: string): DestinationRule {
    DestinationRule(LocalHost(info, route))
  }

  function HostOf(info: IstioInfo, route: string): string {
    Fqdn(route, info.suffix)
  }

  /** The gateway servers whose host lists the controller edits. */
  predicate Managed(info: IstioInfo, server: Server) {
    server.portName == info.http || server.portName == info.https
  }
}
