/** The identifiers of api/types.go: a service port is known by the namespace and name of its service, the name
    of the port and the protocol. */
module Api {

  datatype Option<+T> = None | Some(value: T)

  datatype NamespacedName = NamespacedName(namespace: string, name: string) {
    function String(): string {
      namespace + "/" + name
    }
  }

  // v1.Protocol is a string type; only the value "UDP" is ever compared against.
  type Protocol = string

  const UDP: Protocol := "UDP"

  datatype ServicePortName = ServicePortName(nn: NamespacedName, port: string, protocol: Protocol) {
    function String(): string {
      nn.String() + FmtPortName(port)
    }
  }

  function FmtPortName(port: string): string {
    if port == "" then "" else ":" + port
  }

  /** What the trackers know about the node they run on. IsIPv6String is a parameter. */
  datatype Node = Node(hostname: string, ipv6Mode: Option<bool>, isIPv6: string -> bool) {
    predicate WrongFamily(ip: string) {
      ipv6Mode.Some? && isIPv6(ip) != ipv6Mode.value
    }

    /** What NewServiceChangeTracker sets up: it leaves isIPv6Mode nil, so services of both families are kept. */
    function AnyFamily(): Node {
      this.(ipv6Mode := None)
    }
  }

  function Lookup<K, V>(m: map<K, V>, k: K): Option<V> {
    if k in m then Some(m[k]) else None
  }

  /** The latest objects after an event for k: the informers deliver the new object, or none for a deletion. */
  function Observed<K, V>(m: map<K, V>, k: K, current: Option<V>): map<K, V> {
    match current
    case Some(v) => m[k := v]
    case None => m - {k}
  }
}
