/** The rows the coordinator keeps (internal/coordinator/store/store.go). */
module Store {
  import opened Net
  import opened Rules

  datatype Role = RoleHub | RoleNode

  datatype Node = Node(
    id: string, name: string, os: string, role: Role, key: string, ip: Addr,
    advertised: seq<Prefix>, enabled: seq<Prefix>, lockSig: string, approved: bool, tags: seq<string>)

  datatype StaticPeer = StaticPeer(
    id: string, name: string, key: string, ip: Addr, lockSig: string, tags: seq<string>)

  datatype Policy = Policy(
    id: string, srcTags: seq<string>, dstTags: seq<string>, service: Service, enabled: bool)
}
