/**
 * The rule set the controller installs and the per-switch tables it
 * leaves behind. Writing a table entry is modelled as appending the rule
 * to that switch's list; the P4Runtime session that carries the write is
 * not modelled.
 */
module Provisioning {
  import opened Wrappers
  import opened Topology
  import opened Rules

  /** One table-entry write: the rule and the switch it is written to. */
  datatype Entry = Entry(sw: Switch, rule: Rule)

  /** The install sequence exactly as the controller issues it, in groups of three writes. */
  function InstallGroups(): seq<seq<Entry>> {
    [ // local delivery
      [ Entry(S1, L3ForwardRule(H1Ip, H1Mac, S1H1Port)),
        Entry(S2, L3ForwardRule(H2Ip, H2Mac, S2H2Port)),
        Entry(S3, L3ForwardRule(H3Ip, H3Mac, S3H3Port)) ],
      // s1 -> s2
      [ Entry(S1, TunnelIngressRule(H2Ip, TidS1S2)),
        Entry(S1, TunnelTransitRule(TidS1S2, S1S2Port)),
        Entry(S2, TunnelEgressRule(TidS1S2, H2Mac, S2H2Port)) ],
      // s2 -> s1
      [ Entry(S2, TunnelIngressRule(H1Ip, TidS2S1)),
        Entry(S2, TunnelTransitRule(TidS2S1, S2S1Port)),
        Entry(S1, TunnelEgressRule(TidS2S1, H1Mac, S1H1Port)) ],
      // s1 -> s3
      [ Entry(S1, TunnelIngressRule(H3Ip, TidS1S3)),
        Entry(S1, TunnelTransitRule(TidS1S3, S1S3Port)),
        Entry(S3, TunnelEgressRule(TidS1S3, H3Mac, S3H3Port)) ],
      // s3 -> s1
      [ Entry(S3, TunnelIngressRule(H1Ip, TidS3S1)),
        Entry(S3, TunnelTransitRule(TidS3S1, S3S1Port)),
        Entry(S1, TunnelEgressRule(TidS3S1, H1Mac, S1H1Port)) ],
      // s2 -> s3
      [ Entry(S2, TunnelIngressRule(H3Ip, TidS2S3)),
        Entry(S2, TunnelTransitRule(TidS2S3, S2S3Port)),
        Entry(S3, TunnelEgressRule(TidS2S3, H3Mac, S3H3Port)) ],
      // s3 -> s2
      [ Entry(S3, TunnelIngressRule(H2Ip, TidS3S2)),
        Entry(S3, TunnelTransitRule(TidS3S2, S3S2Port)),
        Entry(S2, TunnelEgressRule(TidS3S2, H2Mac, S2H2Port)) ] ]
  }

  /** The groups' writes one after another. */
  function Flatten(gs: seq<seq<Entry>>): seq<Entry> {
    if gs == [] then [] else gs[0] + Flatten(gs[1..])
  }

  /** The 21 writes of the controller's startup, in the order it issues them. */
  function InstallPlan(): seq<Entry> {
    Flatten(InstallGroups())
  }

  /** Local delivery on `s`: its own host's address goes out the host port with the host's MAC. */
  function LocalEntry(s: Switch): Entry {
    Entry(s, L3ForwardRule(HostOf(s).ip, HostOf(s).mac, HostPort(s)))
  }

  const LocalPlan: seq<Entry> := [LocalEntry(S1), LocalEntry(S2), LocalEntry(S3)]

  /**
   * The three rules of one directed tunnel S->T: ingress and transit on S,
   * egress on T. Ingress matches T's host, transit leaves S toward T, and
   * egress hands the packet to T's host.
   */
  function TunnelEntries(t: Tunnel): seq<Entry>
    requires t.src != t.dst
  {
    [ Entry(t.src, TunnelIngressRule(HostOf(t.dst).ip, t.tid)),
      Entry(t.src, TunnelTransitRule(t.tid, PortToward(t.src, t.dst))),
      Entry(t.dst, TunnelEgressRule(t.tid, HostOf(t.dst).mac, HostPort(t.dst))) ]
  }

  /** The tunnel rules of `ts`, tunnel by tunnel. */
  function TunnelPlan(ts: seq<Tunnel>): (plan: seq<Entry>)
    requires Directed(ts)
    ensures |plan| == 3 * |ts|
  {
    if ts == [] then [] else TunnelEntries(ts[0]) + TunnelPlan(ts[1..])
  }

  /** The rule set derived from the topology: local delivery, then every tunnel's three rules. */
  function DerivedPlan(): seq<Entry> {
    TunnelsWellFormed();
    LocalPlan + TunnelPlan(Tunnels)
  }

  /** Tunnel `k`'s three rules sit at positions 3k..3k+3 of the tunnel plan. */
  lemma {:induction false} TunnelPlanLayout(ts: seq<Tunnel>, k: nat)
    requires Directed(ts) && k < |ts|
    ensures TunnelPlan(ts)[3 * k .. 3 * k + 3] == TunnelEntries(ts[k])
    decreases k
  {
    if k > 0 {
      TunnelPlanLayout(ts[1..], k - 1);
      assert TunnelPlan(ts) == TunnelEntries(ts[0]) + TunnelPlan(ts[1..]);
      assert TunnelPlan(ts)[3 * k .. 3 * k + 3] == TunnelPlan(ts[1..])[3 * (k - 1) .. 3 * (k - 1) + 3];
    }
  }

  /** An entry belongs to the tunnel plan exactly when it belongs to one tunnel's rules. */
  lemma {:induction false} TunnelPlanMembers(ts: seq<Tunnel>)
    requires Directed(ts)
    ensures forall k, n :: 0 <= k < |ts| && 0 <= n < 3 ==> TunnelEntries(ts[k])[n] in TunnelPlan(ts)
    ensures forall e :: e in TunnelPlan(ts) ==> exists k :: 0 <= k < |ts| && e in TunnelEntries(ts[k])
  {
    if ts != [] {
      var rest := ts[1..];
      TunnelPlanMembers(rest);
      assert TunnelPlan(ts) == TunnelEntries(ts[0]) + TunnelPlan(rest);
      forall k, n | 0 <= k < |ts| && 0 <= n < 3
        ensures TunnelEntries(ts[k])[n] in TunnelPlan(ts)
      {
        if k > 0 {
          assert ts[k] == rest[k - 1];
        }
      }
      forall e | e in TunnelPlan(ts)
        ensures exists k :: 0 <= k < |ts| && e in TunnelEntries(ts[k])
      {
        if e !in TunnelEntries(ts[0]) {
          var k :| 0 <= k < |rest| && e in TunnelEntries(rest[k]);
          assert ts[k + 1] == rest[k];
        }
      }
    }
  }

  /** Deriving the rules of two tunnel lists one after the other derives the rules of both. */
  lemma {:induction false} TunnelPlanAppend(a: seq<Tunnel>, b: seq<Tunnel>)
    requires Directed(a) && Directed(b)
    ensures Directed(a + b)
    ensures TunnelPlan(a + b) == TunnelPlan(a) + TunnelPlan(b)
  {
    assert Directed(a + b) by {
      forall i | 0 <= i < |a + b| ensures (a + b)[i].src != (a + b)[i].dst {
        if i >= |a| { assert (a + b)[i] == b[i - |a|]; }
      }
    }
    if a != [] {
      assert (a + b)[1..] == a[1..] + b;
      TunnelPlanAppend(a[1..], b);
    } else {
      assert a + b == b;
    }
  }

  /** Groups that are, one by one, the rules of the tunnels of `ts` flatten to their tunnel plan. */
  lemma {:induction false} FlattenTunnels(gs: seq<seq<Entry>>, ts: seq<Tunnel>)
    requires Directed(ts) && |gs| == |ts|
    requires forall i :: 0 <= i < |ts| ==> gs[i] == TunnelEntries(ts[i])
    ensures Flatten(gs) == TunnelPlan(ts)
  {
    if ts != [] {
      FlattenTunnels(gs[1..], ts[1..]);
    }
  }

  /** The first group is local delivery; group `i + 1` is the rules of tunnel `i`. */
  lemma InstallGroupsByTunnel()
    ensures Directed(Tunnels)
    ensures |InstallGroups()| == |Tunnels| + 1 && InstallGroups()[0] == LocalPlan
    ensures forall i :: 0 <= i < |Tunnels| ==> InstallGroups()[i + 1] == TunnelEntries(Tunnels[i])
  {
    TunnelsWellFormed();
    TunnelGroupsFromS1();
    TunnelGroupsBetweenS2S3();
  }

  lemma TunnelGroupsFromS1()
    ensures Directed(Tunnels) && |InstallGroups()| == 7
    ensures forall i :: 0 <= i < 4 ==> InstallGroups()[i + 1] == TunnelEntries(Tunnels[i])
  {
    TunnelsByDirection();
    var gs := InstallGroups();
    var ts := Tunnels;
    assert gs[1] == TunnelEntries(ts[0]);
    assert gs[2] == TunnelEntries(ts[1]);
    assert gs[3] == TunnelEntries(ts[2]);
    assert gs[4] == TunnelEntries(ts[3]);
  }

  lemma TunnelGroupsBetweenS2S3()
    ensures Directed(Tunnels) && |InstallGroups()| == 7
    ensures forall i :: 4 <= i < 6 ==> InstallGroups()[i + 1] == TunnelEntries(Tunnels[i])
  {
    TunnelsByDirection();
    var gs := InstallGroups();
    var ts := Tunnels;
    assert gs[5] == TunnelEntries(ts[4]);
    assert gs[6] == TunnelEntries(ts[5]);
  }

  /** The literal install sequence is the derived rule set, entry for entry. */
  lemma InstallPlanIsDerived()
    ensures InstallPlan() == DerivedPlan()
  {
    InstallGroupsByTunnel();
    var gs := InstallGroups();
    FlattenTunnels(gs[1..], Tunnels);
  }

  /** What a tunnel's writes look like: the LPM write is S's ingress for T's host; the others key on the id. */
  lemma TunnelEntryShape(t: Tunnel, e: Entry)
    requires t.src != t.dst && e in TunnelEntries(t)
    ensures e.rule.table == Ipv4Lpm ==> e.sw == t.src && e.rule.key == HostKey(HostOf(t.dst).ip)
    ensures e.rule.table == MyTunnelExact ==> (e.sw == t.src || e.sw == t.dst) && e.rule.key == TunnelKey(t.tid)
  {
    var es := TunnelEntries(t);
    assert es == [es[0], es[1], es[2]];
  }

  /** What a local-delivery write looks like: its switch's own host address in the LPM table. */
  lemma LocalEntryShape(e: Entry)
    requires e in LocalPlan
    ensures e == LocalEntry(e.sw)
    ensures e.rule.table == Ipv4Lpm && e.rule.key == HostKey(HostOf(e.sw).ip)
  {
  }

  // ---------------------------------------------------------------------
  // Match-key collisions

  /** A rule's identity in its switch: the table it lives in and its match key. */
  function KeyOf(r: Rule): (Table, MatchKey) {
    (r.table, r.key)
  }

  /** No two writes to the same switch share a table and match key. */
  predicate NoKeyCollision(plan: seq<Entry>) {
    forall i, j :: 0 <= i < j < |plan| && plan[i].sw == plan[j].sw ==>
      KeyOf(plan[i].rule) != KeyOf(plan[j].rule)
  }

  /** No write of `a` collides with a write of `b` on the same switch. */
  predicate CrossFree(a: seq<Entry>, b: seq<Entry>) {
    forall x, y :: x in a && y in b && x.sw == y.sw ==> KeyOf(x.rule) != KeyOf(y.rule)
  }

  lemma ConcatNoKeyCollision(a: seq<Entry>, b: seq<Entry>)
    requires NoKeyCollision(a) && NoKeyCollision(b) && CrossFree(a, b)
    ensures NoKeyCollision(a + b)
  {
    var ab := a + b;
    forall i, j | 0 <= i < j < |ab| && ab[i].sw == ab[j].sw
      ensures KeyOf(ab[i].rule) != KeyOf(ab[j].rule)
    {
      if j < |a| {
        assert ab[i] == a[i] && ab[j] == a[j];
      } else if i >= |a| {
        assert ab[i] == b[i - |a|] && ab[j] == b[j - |a|];
      } else {
        assert ab[i] in a && ab[j] in b;
      }
    }
  }

  /** Two different directed tunnels never write the same key to one switch. */
  lemma DistinctTunnelsCrossFree(t: Tunnel, u: Tunnel)
    requires t.src != t.dst && u.src != u.dst
    requires t.tid != u.tid
    requires t.src != u.src || t.dst != u.dst
    ensures CrossFree(TunnelEntries(t), TunnelEntries(u))
  {
    HostAddressesDistinct(t.dst, u.dst);
  }

  /** A tunnel that differs from every tunnel of `rest` collides with none of their writes. */
  lemma HeadCrossFree(t: Tunnel, rest: seq<Tunnel>)
    requires t.src != t.dst && Directed(rest)
    requires forall k :: 0 <= k < |rest| ==> t.tid != rest[k].tid && (t.src != rest[k].src || t.dst != rest[k].dst)
    ensures CrossFree(TunnelEntries(t), TunnelPlan(rest))
  {
    TunnelPlanMembers(rest);
    forall x, y | x in TunnelEntries(t) && y in TunnelPlan(rest) && x.sw == y.sw
      ensures KeyOf(x.rule) != KeyOf(y.rule)
    {
      var k :| 0 <= k < |rest| && y in TunnelEntries(rest[k]);
      DistinctTunnelsCrossFree(t, rest[k]);
    }
  }

  /** The three writes of one tunnel have pairwise different keys where they share a switch. */
  lemma TunnelEntriesNoKeyCollision(t: Tunnel)
    requires t.src != t.dst
    ensures NoKeyCollision(TunnelEntries(t))
  {
  }

  lemma {:induction false} TunnelPlanNoKeyCollision(ts: seq<Tunnel>)
    requires WellFormed(ts)
    ensures NoKeyCollision(TunnelPlan(ts))
  {
    if ts != [] {
      var rest := ts[1..];
      WellFormedTail(ts);
      TunnelPlanNoKeyCollision(rest);
      forall k | 0 <= k < |rest|
        ensures ts[0].tid != rest[k].tid && (ts[0].src != rest[k].src || ts[0].dst != rest[k].dst)
      {
        assert rest[k] == ts[k + 1];
      }
      HeadCrossFree(ts[0], rest);
      var head, tail := TunnelEntries(ts[0]), TunnelPlan(rest);
      assert NoKeyCollision(head) by {
        TunnelEntriesNoKeyCollision(ts[0]);
      }
      ConcatNoKeyCollision(head, tail);
      assert TunnelPlan(ts) == head + tail;
    }
  }

  /** Local delivery keys never collide with tunnel keys: a tunnel's ingress matches a remote host. */
  lemma LocalTunnelCrossFree(ts: seq<Tunnel>)
    requires Directed(ts)
    ensures CrossFree(LocalPlan, TunnelPlan(ts))
  {
    TunnelPlanMembers(ts);
    forall x, y | x in LocalPlan && y in TunnelPlan(ts) && x.sw == y.sw
      ensures KeyOf(x.rule) != KeyOf(y.rule)
    {
      var k :| 0 <= k < |ts| && y in TunnelEntries(ts[k]);
      LocalEntryShape(x);
      TunnelEntryShape(ts[k], y);
      if y.rule.table == Ipv4Lpm {
        HostAddressesDistinct(x.sw, ts[k].dst);
      }
    }
  }

  /** No switch is written two rules with the same table and match key. */
  lemma InstallPlanNoKeyCollision()
    ensures NoKeyCollision(InstallPlan())
  {
    DerivedPlanNoKeyCollision();
    InstallPlanIsDerived();
  }

  lemma DerivedPlanNoKeyCollision()
    ensures NoKeyCollision(DerivedPlan())
  {
    TunnelsWellFormed();
    TunnelPlanNoKeyCollision(Tunnels);
    LocalTunnelCrossFree(Tunnels);
    assert NoKeyCollision(LocalPlan) by {
      forall i, j | 0 <= i < j < |LocalPlan|
        ensures LocalPlan[i].sw != LocalPlan[j].sw
      {
      }
    }
    ConcatNoKeyCollision(LocalPlan, TunnelPlan(Tunnels));
  }

  // ---------------------------------------------------------------------
  // Rule counts

  /** The tunnel id a tunnel rule carries: the ingress parameter, or the transit/egress key. */
  function TidOf(r: Rule): Option<nat> {
    match Interpret(r)
    case Some(TunnelIngress(_, tid)) => Some(tid)
    case Some(TunnelTransit(tid, _)) => Some(tid)
    case Some(TunnelEgress(tid, _, _)) => Some(tid)
    case _ => None
  }

  /** How many writes of `plan` use action `a`. */
  function CountAction(plan: seq<Entry>, a: Action): nat {
    if plan == [] then 0
    else (if plan[0].rule.action == a then 1 else 0) + CountAction(plan[1..], a)
  }

  /** How many writes of `plan` use action `a` for tunnel `tid`. */
  function CountRole(plan: seq<Entry>, a: Action, tid: nat): nat {
    if plan == [] then 0
    else (if plan[0].rule.action == a && TidOf(plan[0].rule) == Some(tid) then 1 else 0)
         + CountRole(plan[1..], a, tid)
  }

  lemma {:induction false} CountAppend(p: seq<Entry>, q: seq<Entry>, a: Action, tid: nat)
    ensures CountAction(p + q, a) == CountAction(p, a) + CountAction(q, a)
    ensures CountRole(p + q, a, tid) == CountRole(p, a, tid) + CountRole(q, a, tid)
  {
    if p == [] {
      assert p + q == q;
    } else {
      assert (p + q)[1..] == p[1..] + q;
      CountAppend(p[1..], q, a, tid);
    }
  }

  /** Whether write `e` uses action `a`, and whether it does so for tunnel `tid`, as 0 or 1. */
  function ActionHit(e: Entry, a: Action): nat {
    if e.rule.action == a then 1 else 0
  }

  function RoleHit(e: Entry, a: Action, tid: nat): nat {
    if e.rule.action == a && TidOf(e.rule) == Some(tid) then 1 else 0
  }

  /** The counts of a group of three writes, write by write. */
  lemma CountsOfThree(es: seq<Entry>, a: Action, tid: nat)
    requires |es| == 3
    ensures CountAction(es, a) == ActionHit(es[0], a) + ActionHit(es[1], a) + ActionHit(es[2], a)
    ensures CountRole(es, a, tid) == RoleHit(es[0], a, tid) + RoleHit(es[1], a, tid) + RoleHit(es[2], a, tid)
  {
    var e1 := es[1..];
    var e2 := e1[1..];
    assert e1[0] == es[1] && e2[0] == es[2] && e2[1..] == [];
    assert CountAction(e2, a) == ActionHit(es[2], a);
    assert CountAction(e1, a) == ActionHit(es[1], a) + CountAction(e2, a);
    assert CountRole(e2, a, tid) == RoleHit(es[2], a, tid);
    assert CountRole(e1, a, tid) == RoleHit(es[1], a, tid) + CountRole(e2, a, tid);
  }

  lemma TunnelEntriesCounts(t: Tunnel, a: Action, tid: nat)
    requires t.src != t.dst
    ensures CountAction(TunnelEntries(t), a) == (if a == Ipv4Forward then 0 else 1)
    ensures CountRole(TunnelEntries(t), a, tid) == (if a != Ipv4Forward && t.tid == tid then 1 else 0)
  {
    var es := TunnelEntries(t);
    BuildersReadBack(HostOf(t.dst).ip, HostOf(t.dst).mac, PortToward(t.src, t.dst), t.tid);
    BuildersReadBack(HostOf(t.dst).ip, HostOf(t.dst).mac, HostPort(t.dst), t.tid);
    assert TidOf(es[0].rule) == Some(t.tid) && TidOf(es[1].rule) == Some(t.tid) && TidOf(es[2].rule) == Some(t.tid);
    CountsOfThree(es, a, tid);
  }

  lemma LocalPlanCounts(a: Action, tid: nat)
    ensures CountAction(LocalPlan, a) == (if a == Ipv4Forward then 3 else 0)
    ensures CountRole(LocalPlan, a, tid) == 0
  {
    forall s: Switch ensures TidOf(LocalEntry(s).rule) == None {
      BuildersReadBack(HostOf(s).ip, HostOf(s).mac, HostPort(s), 0);
    }
    CountsOfThree(LocalPlan, a, tid);
  }

  /**
   * Each tunnel contributes one rule of each tunnel action and no local
   * delivery; with distinct ids, each id occurs in exactly one ingress,
   * one transit and one egress rule.
   */
  lemma {:induction false} TunnelPlanCounts(ts: seq<Tunnel>, a: Action, tid: nat)
    requires WellFormed(ts)
    ensures CountAction(TunnelPlan(ts), a) == (if a == Ipv4Forward then 0 else |ts|)
    ensures a != Ipv4Forward ==> CountRole(TunnelPlan(ts), a, tid) == (if tid in Tids(ts) then 1 else 0)
  {
    if ts != [] {
      var rest := ts[1..];
      WellFormedTail(ts);
      TunnelPlanCounts(rest, a, tid);
      CountAppend(TunnelEntries(ts[0]), TunnelPlan(rest), a, tid);
      TunnelEntriesCounts(ts[0], a, tid);
      assert Tids(ts) == [ts[0].tid] + Tids(rest);
      if tid in Tids(rest) {
        var j :| 0 <= j < |rest| && Tids(rest)[j] == tid;
        assert ts[j + 1].tid == tid;
      }
    }
  }

  /**
   * The install sequence writes 21 rules: three local-delivery rules, and
   * for each of the six tunnel ids exactly one ingress, one transit and one
   * egress rule.
   */
  lemma InstallPlanCounts(a: Action, tid: nat)
    ensures |InstallPlan()| == 21
    ensures CountAction(InstallPlan(), a) == (if a == Ipv4Forward then 3 else 6)
    ensures a != Ipv4Forward ==> CountRole(InstallPlan(), a, tid) == (if tid in {100, 101, 200, 201, 300, 301} then 1 else 0)
  {
    DerivedPlanCounts(a, tid);
    InstallPlanIsDerived();
  }

  lemma DerivedPlanCounts(a: Action, tid: nat)
    ensures |DerivedPlan()| == 21
    ensures CountAction(DerivedPlan(), a) == (if a == Ipv4Forward then 3 else 6)
    ensures a != Ipv4Forward ==> CountRole(DerivedPlan(), a, tid) == (if tid in {100, 101, 200, 201, 300, 301} then 1 else 0)
  {
    TunnelsWellFormed();
    TunnelIds();
    TunnelPlanCounts(Tunnels, a, tid);
    CountAppend(LocalPlan, TunnelPlan(Tunnels), a, tid);
    LocalPlanCounts(a, tid);
  }
}
