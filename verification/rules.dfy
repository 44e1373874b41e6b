/**
 * The forwarding rules the controller writes. Each of the four rule
 * builders maps its arguments to a table entry of fixed shape: a table,
 * a match key, an action and named action parameters. Table and action
 * names stay symbolic; their resolution to numeric P4 ids is not modelled.
 */
module Rules {
  import opened Wrappers

  datatype Table = Ipv4Lpm | MyTunnelExact

  function TableName(t: Table): string {
    match t
    case Ipv4Lpm => "MyIngress.ipv4_lpm"
    case MyTunnelExact => "MyIngress.myTunnel_exact"
  }

  /** Distinct tables have distinct P4 names, so the symbolic table stands for its name. */
  lemma TableNameInjective(a: Table, b: Table)
    ensures TableName(a) == TableName(b) <==> a == b
  {
  }

  datatype Action = Ipv4Forward | MyTunnelIngress | MyTunnelForward | MyTunnelEgress

  function ActionName(a: Action): string {
    match a
    case Ipv4Forward => "MyIngress.ipv4_forward"
    case MyTunnelIngress => "MyIngress.myTunnel_ingress"
    case MyTunnelForward => "MyIngress.myTunnel_forward"
    case MyTunnelEgress => "MyIngress.myTunnel_egress"
  }

  /** Distinct actions have distinct P4 names, so the symbolic action stands for its name. */
  lemma ActionNameInjective(a: Action, b: Action)
    ensures ActionName(a) == ActionName(b) <==> a == b
  {
  }

  /** A longest-prefix match on an address, or an exact match on a number. */
  datatype MatchKey =
    | Lpm(field: string, addr: string, prefixLen: nat)
    | Exact(field: string, value: nat)

  datatype ParamValue = MacParam(mac: string) | PortParam(port: nat) | IdParam(id: nat)

  /** One table entry: the match key selects it, the action runs with the params. */
  datatype Rule = Rule(table: Table, key: MatchKey, action: Action, params: map<string, ParamValue>)

  const Ipv4DstField := "hdr.ipv4.dstAddr"
  const TunnelIdField := "hdr.myTunnel.dst_id"

  /** The /32 match on a host's IPv4 destination address. */
  function HostKey(ip: string): MatchKey {
    Lpm(Ipv4DstField, ip, 32)
  }

  /** The exact match on the tunnel header's id. */
  function TunnelKey(tid: nat): MatchKey {
    Exact(TunnelIdField, tid)
  }

  /** What a rule means, independent of how it is encoded as a table entry. */
  datatype RuleSpec =
    | LocalDelivery(ip: string, mac: string, port: nat)
    | TunnelIngress(ip: string, tid: nat)
    | TunnelTransit(tid: nat, port: nat)
    | TunnelEgress(tid: nat, mac: string, port: nat)

  /**
   * Reads a table entry back as one of the four rule kinds; an entry of any
   * other shape (wrong table, key, or parameter set) reads as None.
   */
  function Interpret(r: Rule): Option<RuleSpec> {
    match r.action
    case Ipv4Forward =>
      if r.table == Ipv4Lpm && r.key.Lpm? && r.key == HostKey(r.key.addr)
         && r.params.Keys == {"dstAddr", "port"}
         && r.params["dstAddr"].MacParam? && r.params["port"].PortParam?
      then Some(LocalDelivery(r.key.addr, r.params["dstAddr"].mac, r.params["port"].port))
      else None
    case MyTunnelIngress =>
      if r.table == Ipv4Lpm && r.key.Lpm? && r.key == HostKey(r.key.addr)
         && r.params.Keys == {"dst_id"} && r.params["dst_id"].IdParam?
      then Some(TunnelIngress(r.key.addr, r.params["dst_id"].id))
      else None
    case MyTunnelForward =>
      if r.table == MyTunnelExact && r.key.Exact? && r.key == TunnelKey(r.key.value)
         && r.params.Keys == {"port"} && r.params["port"].PortParam?
      then Some(TunnelTransit(r.key.value, r.params["port"].port))
      else None
    case MyTunnelEgress =>
      if r.table == MyTunnelExact && r.key.Exact? && r.key == TunnelKey(r.key.value)
         && r.params.Keys == {"dstAddr", "port"}
         && r.params["dstAddr"].MacParam? && r.params["port"].PortParam?
      then Some(TunnelEgress(r.key.value, r.params["dstAddr"].mac, r.params["port"].port))
      else None
  }

  /** Local delivery: a packet for `dstIp` leaves on `port` towards `dstEth`. */
  function L3ForwardRule(dstIp: string, dstEth: string, port: nat): (r: Rule)
    ensures r.table == Ipv4Lpm && r.key == HostKey(dstIp) && r.action == Ipv4Forward
  {
    Rule(Ipv4Lpm, HostKey(dstIp), Ipv4Forward,
         map["dstAddr" := MacParam(dstEth), "port" := PortParam(port)])
  }

  /** Tunnel ingress: a packet for `dstIp` is wrapped in tunnel `tid`. */
  function TunnelIngressRule(dstIp: string, tid: nat): (r: Rule)
    ensures r.table == Ipv4Lpm && r.key == HostKey(dstIp) && r.action == MyTunnelIngress
  {
    Rule(Ipv4Lpm, HostKey(dstIp), MyTunnelIngress, map["dst_id" := IdParam(tid)])
  }

  /** Tunnel transit: a packet in tunnel `tid` leaves on `port`. */
  function TunnelTransitRule(tid: nat, port: nat): (r: Rule)
    ensures r.table == MyTunnelExact && r.key == TunnelKey(tid) && r.action == MyTunnelForward
  {
    Rule(MyTunnelExact, TunnelKey(tid), MyTunnelForward, map["port" := PortParam(port)])
  }

  /** Tunnel egress: a packet in tunnel `tid` is unwrapped and leaves on `port` towards `dstEth`. */
  function TunnelEgressRule(tid: nat, dstEth: string, port: nat): (r: Rule)
    ensures r.table == MyTunnelExact && r.key == TunnelKey(tid) && r.action == MyTunnelEgress
  {
    Rule(MyTunnelExact, TunnelKey(tid), MyTunnelEgress,
         map["dstAddr" := MacParam(dstEth), "port" := PortParam(port)])
  }

  /**
   * Each builder's entry reads back as the rule kind it was built for, with
   * the same address, id, MAC and port: no argument is lost or swapped.
   */
  lemma BuildersReadBack(ip: string, mac: string, port: nat, tid: nat)
    ensures Interpret(L3ForwardRule(ip, mac, port)) == Some(LocalDelivery(ip, mac, port))
    ensures Interpret(TunnelIngressRule(ip, tid)) == Some(TunnelIngress(ip, tid))
    ensures Interpret(TunnelTransitRule(tid, port)) == Some(TunnelTransit(tid, port))
    ensures Interpret(TunnelEgressRule(tid, mac, port)) == Some(TunnelEgress(tid, mac, port))
  {
    assert L3ForwardRule(ip, mac, port).params.Keys == {"dstAddr", "port"};
    assert TunnelIngressRule(ip, tid).params.Keys == {"dst_id"};
    assert TunnelTransitRule(tid, port).params.Keys == {"port"};
    assert TunnelEgressRule(tid, mac, port).params.Keys == {"dstAddr", "port"};
  }

  /** Encodes a rule kind with the builder the controller uses for it. */
  function Build(spec: RuleSpec): (r: Rule)
    ensures Interpret(r) == Some(spec)
  {
    match spec
    case LocalDelivery(ip, mac, port) =>
      BuildersReadBack(ip, mac, port, 0);
      L3ForwardRule(ip, mac, port)
    case TunnelIngress(ip, tid) =>
      BuildersReadBack(ip, "", 0, tid);
      TunnelIngressRule(ip, tid)
    case TunnelTransit(tid, port) =>
      BuildersReadBack("", "", port, tid);
      TunnelTransitRule(tid, port)
    case TunnelEgress(tid, mac, port) =>
      BuildersReadBack("", mac, port, tid);
      TunnelEgressRule(tid, mac, port)
  }

  /** Every entry that reads as a rule kind is exactly what the builder writes for it. */
  lemma InterpretBuild(r: Rule)
    requires Interpret(r).Some?
    ensures Build(Interpret(r).value) == r
  {
    match r.action
    case Ipv4Forward =>
      assert r.params == map["dstAddr" := r.params["dstAddr"], "port" := r.params["port"]];
    case MyTunnelIngress =>
      assert r.params == map["dst_id" := r.params["dst_id"]];
    case MyTunnelForward =>
      assert r.params == map["port" := r.params["port"]];
    case MyTunnelEgress =>
      assert r.params == map["dstAddr" := r.params["dstAddr"], "port" := r.params["port"]];
  }

  /** Two kinds encode to the same table entry only if they are the same kind. */
  lemma BuildInjective(a: RuleSpec, b: RuleSpec)
    ensures Build(a) == Build(b) <==> a == b
  {
  }

  /** The table a rule kind lands in: local and ingress rules share the LPM table. */
  lemma BuildTable(spec: RuleSpec)
    ensures Build(spec).table == (if spec.LocalDelivery? || spec.TunnelIngress? then Ipv4Lpm else MyTunnelExact)
    ensures spec.LocalDelivery? || spec.TunnelIngress? ==> Build(spec).key == HostKey(spec.ip)
    ensures spec.TunnelTransit? || spec.TunnelEgress? ==> Build(spec).key == TunnelKey(spec.tid)
  {
  }
}
