/**
 * The switches' forwarding tables after provisioning. Each write appends
 * one rule to the target switch's list; a lookup returns the first rule
 * installed under a table and match key. With no key collisions the
 * lookup is unambiguous, and every tunnel resolves the way its rules say.
 */
module SwitchTables {
  import opened Wrappers
  import opened Topology
  import opened Rules
  import opened Provisioning

  /** The rules written to each switch, in write order. */
  type Tables = map<Switch, seq<Rule>>

  /** The rules on switch `s`; a switch never written to holds none. */
  function Installed(tables: Tables, s: Switch): seq<Rule> {
    if s in tables then tables[s] else []
  }

  /** One table-entry write: the rule goes to the end of `sw`'s list and no other switch changes. */
  function WriteTableEntry(tables: Tables, sw: Switch, r: Rule): (t: Tables)
    ensures Installed(t, sw) == Installed(tables, sw) + [r]
    ensures forall s :: s != sw ==> Installed(t, s) == Installed(tables, s)
  {
    tables[sw := Installed(tables, sw) + [r]]
  }

  /** Issues the writes of `plan` in order. */
  function Provision(tables: Tables, plan: seq<Entry>): Tables
    decreases |plan|
  {
    if plan == [] then tables
    else Provision(WriteTableEntry(tables, plan[0].sw, plan[0].rule), plan[1..])
  }

  /** The rules `plan` writes to switch `s`, in order. */
  function RulesOn(plan: seq<Entry>, s: Switch): seq<Rule> {
    if plan == [] then []
    else (if plan[0].sw == s then [plan[0].rule] else []) + RulesOn(plan[1..], s)
  }

  /** After provisioning, each switch holds what it held before followed by its own writes, in order. */
  lemma {:induction false} ProvisionContents(tables: Tables, plan: seq<Entry>, s: Switch)
    ensures Installed(Provision(tables, plan), s) == Installed(tables, s) + RulesOn(plan, s)
    decreases |plan|
  {
    if plan != [] {
      var t' := WriteTableEntry(tables, plan[0].sw, plan[0].rule);
      ProvisionContents(t', plan[1..], s);
    }
  }

  /** A rule lands on `s` exactly when the plan writes it to `s`. */
  lemma {:induction false} RulesOnMembers(plan: seq<Entry>, s: Switch)
    ensures forall r :: r in RulesOn(plan, s) <==> Entry(s, r) in plan
  {
    if plan != [] {
      RulesOnMembers(plan[1..], s);
      assert plan == [plan[0]] + plan[1..];
    }
  }

  /** No two rules of a switch share a table and match key. */
  predicate DistinctKeys(rs: seq<Rule>) {
    forall i, j :: 0 <= i < j < |rs| ==> KeyOf(rs[i]) != KeyOf(rs[j])
  }

  /** A collision-free plan leaves every switch with distinct keys. */
  lemma {:induction false} RulesOnDistinct(plan: seq<Entry>, s: Switch)
    requires NoKeyCollision(plan)
    ensures DistinctKeys(RulesOn(plan, s))
  {
    if plan != [] {
      var rest := plan[1..];
      assert NoKeyCollision(rest) by {
        forall i, j | 0 <= i < j < |rest| && rest[i].sw == rest[j].sw
          ensures KeyOf(rest[i].rule) != KeyOf(rest[j].rule)
        {
          assert rest[i] == plan[i + 1] && rest[j] == plan[j + 1];
        }
      }
      RulesOnDistinct(rest, s);
      if plan[0].sw == s {
        var tail := RulesOn(rest, s);
        RulesOnMembers(rest, s);
        forall j | 0 <= j < |tail|
          ensures KeyOf(plan[0].rule) != KeyOf(tail[j])
        {
          assert Entry(s, tail[j]) in rest;
          var k :| 0 <= k < |rest| && rest[k] == Entry(s, tail[j]);
          assert plan[k + 1] == rest[k];
        }
        var rs := [plan[0].rule] + tail;
        forall i, j | 0 <= i < j < |rs|
          ensures KeyOf(rs[i]) != KeyOf(rs[j])
        {
          if i > 0 {
            assert rs[i] == tail[i - 1] && rs[j] == tail[j - 1];
          } else {
            assert rs[j] == tail[j - 1];
          }
        }
      }
    }
  }

  /** The first rule of `rs` under `table` and `key`, if any. */
  function Lookup(rs: seq<Rule>, table: Table, key: MatchKey): (found: Option<Rule>)
    ensures found.Some? ==> found.value in rs && KeyOf(found.value) == (table, key)
    ensures found.None? <==> forall r :: r in rs ==> KeyOf(r) != (table, key)
  {
    if rs == [] then None
    else if KeyOf(rs[0]) == (table, key) then Some(rs[0])
    else Lookup(rs[1..], table, key)
  }

  /** With distinct keys, looking up an installed rule's key finds that very rule. */
  lemma {:induction false} LookupFindsInstalled(rs: seq<Rule>, r: Rule)
    requires DistinctKeys(rs) && r in rs
    ensures Lookup(rs, r.table, r.key) == Some(r)
  {
    if rs[0] != r {
      var rest := rs[1..];
      assert r in rest;
      assert DistinctKeys(rest) by {
        forall i, j | 0 <= i < j < |rest|
          ensures KeyOf(rest[i]) != KeyOf(rest[j])
        {
          assert rest[i] == rs[i + 1] && rest[j] == rs[j + 1];
        }
      }
      var k :| 0 <= k < |rest| && rest[k] == r;
      assert rs[k + 1] == r;
      LookupFindsInstalled(rest, r);
    }
  }

  /** The tables the controller leaves behind: every switch starts empty. */
  function ProvisionedTables(): Tables {
    Provision(map[], InstallPlan())
  }

  /** Every switch's installed rules are exactly the plan's writes to it, with distinct keys. */
  lemma ProvisionedTablesFacts(s: Switch)
    ensures Installed(ProvisionedTables(), s) == RulesOn(InstallPlan(), s)
    ensures DistinctKeys(Installed(ProvisionedTables(), s))
    ensures forall r :: r in Installed(ProvisionedTables(), s) <==> Entry(s, r) in InstallPlan()
  {
    ProvisionContents(map[], InstallPlan(), s);
    InstallPlanNoKeyCollision();
    RulesOnDistinct(InstallPlan(), s);
    RulesOnMembers(InstallPlan(), s);
  }

  /** Writing `e` resolves: the switch it targets answers its key with exactly that rule. */
  lemma PlannedEntryResolves(e: Entry)
    requires e in InstallPlan()
    ensures Lookup(Installed(ProvisionedTables(), e.sw), e.rule.table, e.rule.key) == Some(e.rule)
  {
    ProvisionedTablesFacts(e.sw);
    LookupFindsInstalled(Installed(ProvisionedTables(), e.sw), e.rule);
  }

  /** Each switch delivers its own host's address out the host port with the host's MAC. */
  lemma LocalDeliveryResolves(s: Switch)
    ensures Lookup(Installed(ProvisionedTables(), s), Ipv4Lpm, HostKey(HostOf(s).ip))
         == Some(L3ForwardRule(HostOf(s).ip, HostOf(s).mac, HostPort(s)))
  {
    InstallPlanIsDerived();
    assert LocalEntry(s) in LocalPlan;
    PlannedEntryResolves(LocalEntry(s));
  }

  /** The tunnel from `s` to `t` is one of the six, and its three rules are in the install sequence. */
  lemma TunnelEntriesPlanned(s: Switch, t: Switch) returns (tn: Tunnel)
    requires s != t
    ensures tn == Tunnel(s, t, TunnelId(s, t)) && tn.src != tn.dst
    ensures forall n :: 0 <= n < 3 ==> TunnelEntries(tn)[n] in InstallPlan()
  {
    TunnelsWellFormed();
    tn := Tunnel(s, t, TunnelId(s, t));
    var k := TunnelIndex(s, t);
    TunnelPlanMembers(Tunnels);
    InstallPlanIsDerived();
    assert forall n :: 0 <= n < 3 ==> TunnelEntries(Tunnels[k])[n] in TunnelPlan(Tunnels);
  }

  /**
   * For every directed pair S->T of distinct switches, S wraps traffic for
   * T's host in the S->T tunnel and sends it out its port toward T, and T
   * unwraps that tunnel to its own host's MAC on the host port.
   */
  lemma TunnelResolves(s: Switch, t: Switch)
    requires s != t
    ensures Lookup(Installed(ProvisionedTables(), s), Ipv4Lpm, HostKey(HostOf(t).ip))
         == Some(TunnelIngressRule(HostOf(t).ip, TunnelId(s, t)))
    ensures Lookup(Installed(ProvisionedTables(), s), MyTunnelExact, TunnelKey(TunnelId(s, t)))
         == Some(TunnelTransitRule(TunnelId(s, t), PortToward(s, t)))
    ensures Lookup(Installed(ProvisionedTables(), t), MyTunnelExact, TunnelKey(TunnelId(s, t)))
         == Some(TunnelEgressRule(TunnelId(s, t), HostOf(t).mac, HostPort(t)))
  {
    var tn := TunnelEntriesPlanned(s, t);
    var es := TunnelEntries(tn);
    assert es[0] in InstallPlan() && es[1] in InstallPlan() && es[2] in InstallPlan();
    PlannedEntryResolves(es[0]);
    PlannedEntryResolves(es[1]);
    PlannedEntryResolves(es[2]);
  }

  /** Host h1 to host h3: s1 wraps in tunnel 200 and sends on port 3; s3 unwraps to h3's MAC on port 1. */
  lemma H1ToH3Example()
    ensures Lookup(Installed(ProvisionedTables(), S1), Ipv4Lpm, HostKey("10.0.3.3")) == Some(TunnelIngressRule("10.0.3.3", 200))
    ensures Lookup(Installed(ProvisionedTables(), S1), MyTunnelExact, TunnelKey(200)) == Some(TunnelTransitRule(200, 3))
    ensures Lookup(Installed(ProvisionedTables(), S3), MyTunnelExact, TunnelKey(200)) == Some(TunnelEgressRule(200, "08:00:00:00:03:33", 1))
  {
    assert TunnelId(S1, S3) == 200 && PortToward(S1, S3) == 3 && HostPort(S3) == 1;
    assert HostOf(S3) == Host("10.0.3.3", "08:00:00:00:03:33");
    TunnelResolves(S1, S3);
  }

  /** The match keys a switch holds in `table`. */
  function KeysIn(rs: seq<Rule>, table: Table): set<MatchKey> {
    set r | r in rs && r.table == table :: r.key
  }

  /** Where a planned write comes from: local delivery, or tunnel `k`'s rules. */
  lemma PlannedEntryOrigin(e: Entry) returns (k: int)
    requires e in InstallPlan()
    ensures -1 <= k < |Tunnels| && Directed(Tunnels)
    ensures k == -1 ==> e in LocalPlan
    ensures k >= 0 ==> e in TunnelEntries(Tunnels[k])
  {
    TunnelsWellFormed();
    InstallPlanIsDerived();
    TunnelPlanMembers(Tunnels);
    if e in LocalPlan {
      k := -1;
    } else {
      k :| 0 <= k < |Tunnels| && e in TunnelEntries(Tunnels[k]);
    }
  }

  /** Where an installed rule comes from: the local-delivery write, or a write of tunnel `k`. */
  lemma InstalledOrigin(s: Switch, r: Rule) returns (k: int)
    requires r in Installed(ProvisionedTables(), s)
    ensures -1 <= k < |Tunnels| && Directed(Tunnels)
    ensures k == -1 ==> Entry(s, r) in LocalPlan
    ensures k >= 0 ==> Entry(s, r) in TunnelEntries(Tunnels[k])
  {
    ProvisionedTablesFacts(s);
    k := PlannedEntryOrigin(Entry(s, r));
  }

  /** A key held in `table` on `s`, witnessed by the rule a lookup returns. */
  lemma FoundKeyHeld(rs: seq<Rule>, table: Table, key: MatchKey)
    requires Lookup(rs, table, key).Some?
    ensures key in KeysIn(rs, table)
  {
    var r := Lookup(rs, table, key).value;
    assert r in rs && r.table == table && r.key == key;
  }

  /** The LPM keys of the three hosts. */
  const HostKeys := {HostKey(H1Ip), HostKey(H2Ip), HostKey(H3Ip)}

  /** Every LPM key a switch holds is the address of one of the three hosts, host `u`'s. */
  lemma LpmKeyOwner(s: Switch, r: Rule) returns (u: Switch)
    requires r in Installed(ProvisionedTables(), s) && r.table == Ipv4Lpm
    ensures r.key == HostKey(HostOf(u).ip)
  {
    var k := InstalledOrigin(s, r);
    if k >= 0 {
      TunnelEntryShape(Tunnels[k], Entry(s, r));
      u := Tunnels[k].dst;
    } else {
      LocalEntryShape(Entry(s, r));
      u := s;
    }
  }

  lemma HostKeyListed(u: Switch)
    ensures HostKey(HostOf(u).ip) in HostKeys
  {
  }

  /** Every switch holds an LPM key for each of the three hosts. */
  lemma HostKeysHeld(s: Switch, u: Switch)
    ensures HostKey(HostOf(u).ip) in KeysIn(Installed(ProvisionedTables(), s), Ipv4Lpm)
  {
    if u == s {
      LocalDeliveryResolves(s);
    } else {
      TunnelResolves(s, u);
    }
    FoundKeyHeld(Installed(ProvisionedTables(), s), Ipv4Lpm, HostKey(HostOf(u).ip));
  }

  /** A key set is `ks` when every key in the table is in `ks` and every key of `ks` is in the table. */
  lemma KeysInExactly(rs: seq<Rule>, table: Table, ks: set<MatchKey>)
    requires forall r :: r in rs && r.table == table ==> r.key in ks
    requires forall k :: k in ks ==> k in KeysIn(rs, table)
    ensures KeysIn(rs, table) == ks
  {
  }

  /** Each switch's LPM table matches exactly the three host addresses: its own host and the two remote ones. */
  lemma LpmKeySet(s: Switch)
    ensures KeysIn(Installed(ProvisionedTables(), s), Ipv4Lpm) == HostKeys
  {
    var rs := Installed(ProvisionedTables(), s);
    forall r | r in rs && r.table == Ipv4Lpm
      ensures r.key in HostKeys
    {
      var u := LpmKeyOwner(s, r);
      HostKeyListed(u);
    }
    HostKeysHeld(s, S1);
    HostKeysHeld(s, S2);
    HostKeysHeld(s, S3);
    assert HostOf(S1).ip == H1Ip && HostOf(S2).ip == H2Ip && HostOf(S3).ip == H3Ip;
    KeysInExactly(rs, Ipv4Lpm, HostKeys);
  }

  /** Every tunnel key a switch holds is the id of a tunnel that leaves it or arrives at it. */
  lemma TunnelKeyOwner(s: Switch, r: Rule) returns (t: Tunnel)
    requires r in Installed(ProvisionedTables(), s) && r.table == MyTunnelExact
    ensures t in Tunnels && (t.src == s || t.dst == s) && r.key == TunnelKey(t.tid)
  {
    var k := InstalledOrigin(s, r);
    if k >= 0 {
      TunnelEntryShape(Tunnels[k], Entry(s, r));
      t := Tunnels[k];
    } else {
      LocalEntryShape(Entry(s, r));
      assert false;
    }
  }

  /** Both ends of a tunnel hold its id in their tunnel tables. */
  lemma TunnelKeyHeld(s: Switch, t: Tunnel)
    requires t in Tunnels && (t.src == s || t.dst == s)
    ensures TunnelKey(t.tid) in KeysIn(Installed(ProvisionedTables(), s), MyTunnelExact)
  {
    TunnelMember(t);
    TunnelResolves(t.src, t.dst);
    FoundKeyHeld(Installed(ProvisionedTables(), s), MyTunnelExact, TunnelKey(t.tid));
  }

  /** The ids of the tunnels of `ts` that leave or arrive at `s`, as tunnel keys. */
  function EndpointKeys(ts: seq<Tunnel>, s: Switch): set<MatchKey> {
    set t | t in ts && (t.src == s || t.dst == s) :: TunnelKey(t.tid)
  }

  lemma EndpointKeysExactly(rs: seq<Rule>, ts: seq<Tunnel>, s: Switch)
    requires forall r :: r in rs && r.table == MyTunnelExact ==>
      exists t :: t in ts && (t.src == s || t.dst == s) && r.key == TunnelKey(t.tid)
    requires forall t :: t in ts && (t.src == s || t.dst == s) ==> TunnelKey(t.tid) in KeysIn(rs, MyTunnelExact)
    ensures KeysIn(rs, MyTunnelExact) == EndpointKeys(ts, s)
  {
    KeysInExactly(rs, MyTunnelExact, EndpointKeys(ts, s));
  }

  /** Each switch's tunnel table matches exactly the ids of the tunnels leaving it and arriving at it. */
  lemma TunnelKeySet(s: Switch)
    ensures KeysIn(Installed(ProvisionedTables(), s), MyTunnelExact) == EndpointKeys(Tunnels, s)
  {
    var rs := Installed(ProvisionedTables(), s);
    forall r | r in rs && r.table == MyTunnelExact
      ensures exists t :: t in Tunnels && (t.src == s || t.dst == s) && r.key == TunnelKey(t.tid)
    {
      var t := TunnelKeyOwner(s, r);
    }
    forall t | t in Tunnels && (t.src == s || t.dst == s)
      ensures TunnelKey(t.tid) in KeysIn(rs, MyTunnelExact)
    {
      TunnelKeyHeld(s, t);
    }
    EndpointKeysExactly(rs, Tunnels, s);
  }

  /** The tunnel ids each switch is an end of. */
  lemma EndpointKeysListed(s: Switch)
    ensures EndpointKeys(Tunnels, s) == match s
      case S1 => {TunnelKey(100), TunnelKey(101), TunnelKey(200), TunnelKey(201)}
      case S2 => {TunnelKey(100), TunnelKey(101), TunnelKey(300), TunnelKey(301)}
      case S3 => {TunnelKey(200), TunnelKey(201), TunnelKey(300), TunnelKey(301)}
  {
    var ts := Tunnels;
    assert ts[0] in ts && ts[1] in ts && ts[2] in ts && ts[3] in ts && ts[4] in ts && ts[5] in ts;
  }

  /** s1 matches tunnels 100, 101, 200 and 201; s2 100, 101, 300 and 301; s3 200, 201, 300 and 301. */
  lemma TunnelKeysBySwitch(s: Switch)
    ensures KeysIn(Installed(ProvisionedTables(), s), MyTunnelExact) == match s
      case S1 => {TunnelKey(100), TunnelKey(101), TunnelKey(200), TunnelKey(201)}
      case S2 => {TunnelKey(100), TunnelKey(101), TunnelKey(300), TunnelKey(301)}
      case S3 => {TunnelKey(200), TunnelKey(201), TunnelKey(300), TunnelKey(301)}
  {
    TunnelKeySet(s);
    EndpointKeysListed(s);
  }
}
