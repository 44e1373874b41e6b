/**
 * The fixed topology the controller is written for: three switches in a
 * full mesh, one host behind port 1 of each switch, and six directed
 * tunnels, one per ordered pair of distinct switches. The constants
 * carry the values the controller hard-codes for hosts, tunnel ids and
 * ports.
 */
module Topology {

  datatype Switch = S1 | S2 | S3

  // Host addresses
  const H1Ip := "10.0.1.1"
  const H1Mac := "08:00:00:00:01:11"
  const H2Ip := "10.0.2.2"
  const H2Mac := "08:00:00:00:02:22"
  const H3Ip := "10.0.3.3"
  const H3Mac := "08:00:00:00:03:33"

  // Tunnel ids, one per directed switch pair
  const TidS1S2: nat := 100
  const TidS2S1: nat := 101
  const TidS1S3: nat := 200
  const TidS3S1: nat := 201
  const TidS2S3: nat := 300
  const TidS3S2: nat := 301

  // Switch ports
  const S1H1Port: nat := 1
  const S1S2Port: nat := 2
  const S1S3Port: nat := 3
  const S2H2Port: nat := 1
  const S2S1Port: nat := 2
  const S2S3Port: nat := 3
  const S3H3Port: nat := 1
  const S3S1Port: nat := 2
  const S3S2Port: nat := 3

  /** Name of the switch connection. */
  function Name(s: Switch): string {
    match s
    case S1 => "s1"
    case S2 => "s2"
    case S3 => "s3"
  }

  /** P4Runtime device id of the switch. */
  function DeviceId(s: Switch): nat {
    match s
    case S1 => 0
    case S2 => 1
    case S3 => 2
  }

  /** gRPC address of the switch's P4Runtime server. */
  function Address(s: Switch): string {
    match s
    case S1 => "127.0.0.1:50051"
    case S2 => "127.0.0.1:50052"
    case S3 => "127.0.0.1:50053"
  }

  lemma SwitchIdentitiesDistinct()
    ensures forall s, t :: Name(s) == Name(t) ==> s == t
    ensures forall s, t :: DeviceId(s) == DeviceId(t) ==> s == t
    ensures forall s, t :: Address(s) == Address(t) ==> s == t
  {
    assert Name(S1)[1] != Name(S2)[1] && Name(S2)[1] != Name(S3)[1] && Name(S1)[1] != Name(S3)[1];
    assert Address(S1)[14] != Address(S2)[14] && Address(S2)[14] != Address(S3)[14] && Address(S1)[14] != Address(S3)[14];
  }

  datatype Host = Host(ip: string, mac: string)

  /** The one host attached to each switch. */
  function HostOf(s: Switch): Host {
    match s
    case S1 => Host(H1Ip, H1Mac)
    case S2 => Host(H2Ip, H2Mac)
    case S3 => Host(H3Ip, H3Mac)
  }

  /** The switch port its host is attached to. */
  function HostPort(s: Switch): nat {
    match s
    case S1 => S1H1Port
    case S2 => S2H2Port
    case S3 => S3H3Port
  }

  /** The port of `s` whose link leads to switch `t`. */
  function PortToward(s: Switch, t: Switch): (p: nat)
    requires s != t
    ensures p != HostPort(s)
  {
    match s
    case S1 => if t == S2 then S1S2Port else S1S3Port
    case S2 => if t == S1 then S2S1Port else S2S3Port
    case S3 => if t == S1 then S3S1Port else S3S2Port
  }

  /** The tunnel id of the directed path from `s` to `t`. */
  function TunnelId(s: Switch, t: Switch): nat
    requires s != t
  {
    match s
    case S1 => if t == S2 then TidS1S2 else TidS1S3
    case S2 => if t == S1 then TidS2S1 else TidS2S3
    case S3 => if t == S1 then TidS3S1 else TidS3S2
  }

  /** A directed tunnel path: traffic enters at `src` and leaves at `dst`. */
  datatype Tunnel = Tunnel(src: Switch, dst: Switch, tid: nat)

  /** The six directed tunnels, in the order the controller installs and polls them. */
  const Tunnels: seq<Tunnel> := [
    Tunnel(S1, S2, TidS1S2), Tunnel(S2, S1, TidS2S1),
    Tunnel(S1, S3, TidS1S3), Tunnel(S3, S1, TidS3S1),
    Tunnel(S2, S3, TidS2S3), Tunnel(S3, S2, TidS3S2)
  ]

  /** Every tunnel joins two distinct switches. */
  predicate Directed(ts: seq<Tunnel>) {
    forall i :: 0 <= i < |ts| ==> ts[i].src != ts[i].dst
  }

  /**
   * A set of directed tunnels that cannot collide: each joins two distinct
   * switches, no two share an id, and no two run in the same direction
   * between the same switches.
   */
  predicate WellFormed(ts: seq<Tunnel>) {
    && Directed(ts)
    && (forall i, j :: 0 <= i < j < |ts| ==> ts[i].tid != ts[j].tid)
    && (forall i, j :: 0 <= i < j < |ts| ==> ts[i].src != ts[j].src || ts[i].dst != ts[j].dst)
  }

  /** The tunnel ids of `ts`, in order. */
  function Tids(ts: seq<Tunnel>): (ids: seq<nat>)
    ensures |ids| == |ts|
    ensures forall i :: 0 <= i < |ts| ==> ids[i] == ts[i].tid
  {
    if ts == [] then [] else [ts[0].tid] + Tids(ts[1..])
  }

  /** Each listed tunnel joins distinct switches and carries its direction's id; the ids ascend. */
  lemma TunnelsByDirection()
    ensures |Tunnels| == 6
    ensures forall i :: 0 <= i < |Tunnels| ==>
      Tunnels[i].src != Tunnels[i].dst && Tunnels[i].tid == TunnelId(Tunnels[i].src, Tunnels[i].dst)
    ensures forall i :: 0 <= i < |Tunnels| - 1 ==> Tunnels[i].tid < Tunnels[i + 1].tid
  {
  }

  /** Ids that ascend step by step ascend across any gap. */
  lemma {:induction false} AscendingTids(ts: seq<Tunnel>, i: nat, j: nat)
    requires forall k :: 0 <= k < |ts| - 1 ==> ts[k].tid < ts[k + 1].tid
    requires i < j < |ts|
    ensures ts[i].tid < ts[j].tid
    decreases j - i
  {
    if i + 1 < j {
      AscendingTids(ts, i + 1, j);
    }
  }

  /** The six ids are pairwise distinct, and no two tunnels run the same way between the same switches. */
  lemma TunnelsWellFormed()
    ensures WellFormed(Tunnels)
  {
    var ts := Tunnels;
    TunnelsByDirection();
    forall i, j | 0 <= i < j < |ts|
      ensures ts[i].tid != ts[j].tid
      ensures ts[i].src != ts[j].src || ts[i].dst != ts[j].dst
    {
      AscendingTids(ts, i, j);
    }
  }

  /** The tunnel ids, in installation order. */
  lemma TunnelIds()
    ensures Tids(Tunnels) == [100, 101, 200, 201, 300, 301]
  {
    var ids := Tids(Tunnels);
    assert |ids| == 6;
    assert ids[0] == 100 && ids[1] == 101 && ids[2] == 200;
    assert ids[3] == 201 && ids[4] == 300 && ids[5] == 301;
  }

  /** Every directed pair of distinct switches has its tunnel in the list, carrying its direction's id. */
  lemma TunnelIndex(s: Switch, t: Switch) returns (k: nat)
    requires s != t
    ensures k < |Tunnels| && Tunnels[k] == Tunnel(s, t, TunnelId(s, t))
  {
    k := if s == S1 && t == S2 then 0
      else if s == S2 && t == S1 then 1
      else if s == S1 && t == S3 then 2
      else if s == S3 && t == S1 then 3
      else if s == S2 && t == S3 then 4
      else 5;
  }

  /** Dropping the first tunnel of a well-formed list leaves a well-formed list. */
  lemma WellFormedTail(ts: seq<Tunnel>)
    requires WellFormed(ts) && ts != []
    ensures WellFormed(ts[1..])
  {
    var rest := ts[1..];
    forall i, j | 0 <= i < j < |rest|
      ensures rest[i].tid != rest[j].tid
      ensures rest[i].src != rest[j].src || rest[i].dst != rest[j].dst
    {
      assert rest[i] == ts[i + 1] && rest[j] == ts[j + 1];
    }
  }

  /** A listed tunnel runs between distinct switches and carries its direction's id. */
  lemma TunnelMember(t: Tunnel)
    requires t in Tunnels
    ensures t.src != t.dst && t.tid == TunnelId(t.src, t.dst)
  {
  }

  /** Different directed pairs never share a tunnel id. */
  lemma TunnelIdInjective(s: Switch, t: Switch, u: Switch, v: Switch)
    requires s != t && u != v
    ensures TunnelId(s, t) == TunnelId(u, v) <==> s == u && t == v
  {
  }

  /** Host addresses identify hosts, and so the switch they hang off. */
  lemma HostAddressesDistinct(s: Switch, t: Switch)
    ensures HostOf(s).ip == HostOf(t).ip <==> s == t
    ensures HostOf(s).mac == HostOf(t).mac <==> s == t
  {
    if s != t {
      assert HostOf(s).ip[5] != HostOf(t).ip[5];
      assert HostOf(s).mac[13] != HostOf(t).mac[13];
    }
  }

  /** The ports of one switch toward different neighbours are different. */
  lemma PortTowardInjective(s: Switch, t: Switch, u: Switch)
    requires s != t && s != u
    ensures PortToward(s, t) == PortToward(s, u) <==> t == u
  {
  }
}
