/**
 * One polling cycle of the tunnel counters. For each directed tunnel the
 * controller reads the ingress counter on the source switch and the egress
 * counter on the destination switch, both at the tunnel id, and appends two
 * lines to the log file of the physical link the tunnel runs over. The
 * counter reads are an oracle; the wall clock is a parameter.
 */
module Polling {
  import opened Topology
  import opened Telemetry
  import opened ObservationLog

  const S1S2Log := "S1S2.txt"
  const S1S3Log := "S1S3.txt"
  const S2S3Log := "S2S3.txt"

  /** The log file of the physical link between `s` and `t`, whichever way round. */
  function LinkLog(s: Switch, t: Switch): string
    requires s != t
  {
    if {s, t} == {S1, S2} then S1S2Log
    else if {s, t} == {S1, S3} then S1S3Log
    else S2S3Log
  }

  /** Both directions of a link share a file, and different links have different files. */
  lemma LinkLogPerLink(s: Switch, t: Switch, u: Switch, v: Switch)
    requires s != t && u != v
    ensures LinkLog(s, t) == LinkLog(u, v) <==> {s, t} == {u, v}
  {
    LogNamesDistinct();
    assert {s, t} == {S1, S2} || {s, t} == {S1, S3} || {s, t} == {S2, S3};
    assert {u, v} == {S1, S2} || {u, v} == {S1, S3} || {u, v} == {S2, S3};
  }

  /** One call of the per-link routine: source, destination, tunnel id and log file. */
  datatype LinkPoll = LinkPoll(src: Switch, dst: Switch, tid: nat, path: string)

  /** The six calls of one cycle, in order. */
  const PollSchedule: seq<LinkPoll> := [
    LinkPoll(S1, S2, TidS1S2, S1S2Log), LinkPoll(S2, S1, TidS2S1, S1S2Log),
    LinkPoll(S1, S3, TidS1S3, S1S3Log), LinkPoll(S3, S1, TidS3S1, S1S3Log),
    LinkPoll(S2, S3, TidS2S3, S2S3Log), LinkPoll(S3, S2, TidS3S2, S2S3Log)
  ]

  /**
   * A cycle visits the six directed tunnels in their installation order,
   * each with its own id, and writes each to the file of its physical link.
   */
  lemma PollScheduleFollowsTunnels()
    ensures |PollSchedule| == |Tunnels|
    ensures forall k :: 0 <= k < |PollSchedule| ==>
      && Tunnels[k].src != Tunnels[k].dst
      && PollSchedule[k] == LinkPoll(Tunnels[k].src, Tunnels[k].dst, Tunnels[k].tid, LinkLog(Tunnels[k].src, Tunnels[k].dst))
  {
  }

  /**
   * The two lines logged for one directed tunnel: first the source's
   * ingress reading, then the destination's egress reading, both stamped
   * with one time and the tunnel id, and carrying packet counts only.
   */
  function LinkLines(oracle: CounterOracle, p: LinkPoll, stamp: Timestamp): (lines: seq<LogLine>) {
    var ingress := ReadCounter(oracle(p.src, IngressTunnelCounter, p.tid));
    var egress := ReadCounter(oracle(p.dst, EgressTunnelCounter, p.tid));
    [ LogLine(stamp, Name(p.src), Sent, ingress.packetCount, p.tid),
      LogLine(stamp, Name(p.dst), Received, egress.packetCount, p.tid) ]
  }

  /**
   * The logged packet counts are the first entries the two reads yield, or
   * zero for a read that yields none; byte counts never reach the file.
   */
  lemma LinkLinesReadings(oracle: CounterOracle, p: LinkPoll, stamp: Timestamp)
    ensures var lines := LinkLines(oracle, p, stamp);
      var ing := Entities(oracle(p.src, IngressTunnelCounter, p.tid).responses);
      var eg := Entities(oracle(p.dst, EgressTunnelCounter, p.tid).responses);
      && |lines| == 2
      && lines[0].stamp == lines[1].stamp == stamp
      && lines[0].tid == lines[1].tid == p.tid
      && lines[0].switchName == Name(p.src) && lines[0].direction == Sent
      && lines[1].switchName == Name(p.dst) && lines[1].direction == Received
      && lines[0].packets == (if |ing| > 0 then ing[0].packetCount else 0)
      && lines[1].packets == (if |eg| > 0 then eg[0].packetCount else 0)
  {
  }

  /** Two oracles that agree on packet counts log the same lines, whatever their byte counts. */
  lemma LinkLinesIgnoreBytes(o1: CounterOracle, o2: CounterOracle, p: LinkPoll, stamp: Timestamp)
    requires ReadCounter(o1(p.src, IngressTunnelCounter, p.tid)).packetCount
          == ReadCounter(o2(p.src, IngressTunnelCounter, p.tid)).packetCount
    requires ReadCounter(o1(p.dst, EgressTunnelCounter, p.tid)).packetCount
          == ReadCounter(o2(p.dst, EgressTunnelCounter, p.tid)).packetCount
    ensures LinkLines(o1, p, stamp) == LinkLines(o2, p, stamp)
  {
  }

  /** Reads and logs one directed tunnel: two lines appended to its file, nothing else touched. */
  function ProcessLinkCounters(fs: Files, oracle: CounterOracle, p: LinkPoll, stamp: Timestamp): (r: Files)
    ensures Contents(r, p.path) == Contents(fs, p.path) + LinkLines(oracle, p, stamp)
    ensures forall q :: q != p.path ==> Contents(r, q) == Contents(fs, q)
    ensures AppendOnly(fs, r)
  {
    var lines := LinkLines(oracle, p, stamp);
    var fs1 := LogToFile(fs, p.path, lines[0]);
    LogToFileAppendOnly(fs, p.path, lines[0]);
    LogToFileAppendOnly(fs1, p.path, lines[1]);
    AppendOnlyTransitive(fs, fs1, LogToFile(fs1, p.path, lines[1]));
    LogToFile(fs1, p.path, lines[1])
  }

  /** What one call leaves in file `q`: its two lines appended if `q` is its file, else nothing new. */
  lemma ProcessLinkCountersFile(fs: Files, oracle: CounterOracle, p: LinkPoll, stamp: Timestamp, q: string)
    ensures Contents(ProcessLinkCounters(fs, oracle, p, stamp), q)
         == Contents(fs, q) + (if p.path == q then LinkLines(oracle, p, stamp) else [])
  {
    if p.path != q {
      assert Contents(fs, q) + [] == Contents(fs, q);
    }
  }

  /** Processes the calls of `sched` in order; call `n` stamps its lines with `clock(n)`. */
  function PollLinks(fs: Files, oracle: CounterOracle, clock: nat -> Timestamp, sched: seq<LinkPoll>, n: nat): Files
    decreases |sched|
  {
    if sched == [] then fs
    else PollLinks(ProcessLinkCounters(fs, oracle, sched[0], clock(n)), oracle, clock, sched[1..], n + 1)
  }

  /** The lines the calls of `sched` append to file `path`, in order. */
  function FileLines(oracle: CounterOracle, clock: nat -> Timestamp, sched: seq<LinkPoll>, n: nat, path: string): seq<LogLine>
    decreases |sched|
  {
    if sched == [] then []
    else (if sched[0].path == path then LinkLines(oracle, sched[0], clock(n)) else [])
         + FileLines(oracle, clock, sched[1..], n + 1, path)
  }

  /** Processing a schedule appends to each file exactly its calls' lines, in call order. */
  lemma {:induction false} PollLinksContents(fs: Files, oracle: CounterOracle, clock: nat -> Timestamp,
                                             sched: seq<LinkPoll>, n: nat, path: string)
    ensures Contents(PollLinks(fs, oracle, clock, sched, n), path) == Contents(fs, path) + FileLines(oracle, clock, sched, n, path)
    decreases |sched|
  {
    if sched != [] {
      var fs1 := ProcessLinkCounters(fs, oracle, sched[0], clock(n));
      var mine := if sched[0].path == path then LinkLines(oracle, sched[0], clock(n)) else [];
      ProcessLinkCountersFile(fs, oracle, sched[0], clock(n), path);
      var rest := FileLines(oracle, clock, sched[1..], n + 1, path);
      assert FileLines(oracle, clock, sched, n, path) == mine + rest;
      PollLinksContents(fs1, oracle, clock, sched[1..], n + 1, path);
      assert PollLinks(fs, oracle, clock, sched, n) == PollLinks(fs1, oracle, clock, sched[1..], n + 1);
      AppendAssociative(Contents(fs, path), mine, rest);
    }
  }

  lemma {:induction false} PollLinksAppendOnly(fs: Files, oracle: CounterOracle, clock: nat -> Timestamp,
                                               sched: seq<LinkPoll>, n: nat)
    ensures AppendOnly(fs, PollLinks(fs, oracle, clock, sched, n))
    decreases |sched|
  {
    if sched != [] {
      var fs1 := ProcessLinkCounters(fs, oracle, sched[0], clock(n));
      PollLinksAppendOnly(fs1, oracle, clock, sched[1..], n + 1);
      AppendOnlyTransitive(fs, fs1, PollLinks(fs, oracle, clock, sched, n));
    }
  }

  /** The environment of one cycle: what the switches answer and what the clock reads at each call. */
  datatype CycleInput = CycleInput(oracle: CounterOracle, clock: nat -> Timestamp)

  /** One polling cycle: the six calls of the schedule. */
  function PollCycle(fs: Files, input: CycleInput): Files {
    PollLinks(fs, input.oracle, input.clock, PollSchedule, 0)
  }

  /** The lines call `k` of a cycle contributes to file `q`. */
  function CallLines(input: CycleInput, k: nat, q: string): seq<LogLine>
    requires k < |PollSchedule|
  {
    if PollSchedule[k].path == q then LinkLines(input.oracle, PollSchedule[k], input.clock(k)) else []
  }

  lemma CycleFileLines(input: CycleInput, q: string)
    ensures FileLines(input.oracle, input.clock, PollSchedule, 0, q)
         == CallLines(input, 0, q) + (CallLines(input, 1, q) + (CallLines(input, 2, q)
          + (CallLines(input, 3, q) + (CallLines(input, 4, q) + CallLines(input, 5, q)))))
  {
    var o, c, sc := input.oracle, input.clock, PollSchedule;
    assert FileLines(o, c, sc[6..], 6, q) == [];
    assert FileLines(o, c, sc[5..], 5, q) == CallLines(input, 5, q) + FileLines(o, c, sc[6..], 6, q);
    assert CallLines(input, 5, q) + [] == CallLines(input, 5, q);
    assert FileLines(o, c, sc[4..], 4, q) == CallLines(input, 4, q) + FileLines(o, c, sc[5..], 5, q);
    assert FileLines(o, c, sc[3..], 3, q) == CallLines(input, 3, q) + FileLines(o, c, sc[4..], 4, q);
    assert FileLines(o, c, sc[2..], 2, q) == CallLines(input, 2, q) + FileLines(o, c, sc[3..], 3, q);
    assert FileLines(o, c, sc[1..], 1, q) == CallLines(input, 1, q) + FileLines(o, c, sc[2..], 2, q);
    assert FileLines(o, c, sc, 0, q) == CallLines(input, 0, q) + FileLines(o, c, sc[1..], 1, q);
  }

  /** A cycle appends to file `q` the lines of the calls that log to `q`, in call order. */
  lemma PollCycleFile(fs: Files, input: CycleInput, q: string)
    ensures Contents(PollCycle(fs, input), q)
         == Contents(fs, q) + (CallLines(input, 0, q) + (CallLines(input, 1, q) + (CallLines(input, 2, q)
          + (CallLines(input, 3, q) + (CallLines(input, 4, q) + CallLines(input, 5, q))))))
  {
    PollLinksContents(fs, input.oracle, input.clock, PollSchedule, 0, q);
    CycleFileLines(input, q);
  }

  lemma LogNamesDistinct()
    ensures S1S2Log != S1S3Log && S1S2Log != S2S3Log && S1S3Log != S2S3Log
  {
    assert S1S2Log[3] != S1S3Log[3] && S1S3Log[1] != S2S3Log[1] && S1S2Log[1] != S2S3Log[1];
  }

  /** The lines a link's two directions contribute to its file in one cycle. */
  function LinkPairLines(input: CycleInput, k: nat): seq<LogLine>
    requires k + 1 < |PollSchedule|
  {
    LinkLines(input.oracle, PollSchedule[k], input.clock(k)) + LinkLines(input.oracle, PollSchedule[k + 1], input.clock(k + 1))
  }

  /** Of the six calls of a cycle, only the two directions of a link write to that link's file. */
  lemma CycleLinkLines(input: CycleInput, k: nat)
    requires k in {0, 2, 4}
    ensures FileLines(input.oracle, input.clock, PollSchedule, 0, PollSchedule[k].path) == LinkPairLines(input, k)
  {
    LogNamesDistinct();
    var q := PollSchedule[k].path;
    CycleFileLines(input, q);
    var c0, c1, c2 := CallLines(input, 0, q), CallLines(input, 1, q), CallLines(input, 2, q);
    var c3, c4, c5 := CallLines(input, 3, q), CallLines(input, 4, q), CallLines(input, 5, q);
    if k == 0 {
      assert c2 == [] && c3 == [] && c4 == [] && c5 == [];
    } else if k == 2 {
      assert c0 == [] && c1 == [] && c4 == [] && c5 == [];
    } else {
      assert c0 == [] && c1 == [] && c2 == [] && c3 == [];
    }
  }

  /** The file of the link of calls `k` and `k + 1` gains their four lines. */
  lemma PollCycleLinkFile(fs: Files, input: CycleInput, k: nat)
    requires k in {0, 2, 4}
    ensures Contents(PollCycle(fs, input), PollSchedule[k].path)
         == Contents(fs, PollSchedule[k].path) + LinkPairLines(input, k)
  {
    PollLinksContents(fs, input.oracle, input.clock, PollSchedule, 0, PollSchedule[k].path);
    CycleLinkLines(input, k);
  }

  /** A file that is no link's log is left as it was. */
  lemma PollCycleOtherFile(fs: Files, input: CycleInput, q: string)
    requires q != S1S2Log && q != S1S3Log && q != S2S3Log
    ensures Contents(PollCycle(fs, input), q) == Contents(fs, q)
  {
    PollCycleFile(fs, input, q);
    assert CallLines(input, 0, q) == [] && CallLines(input, 1, q) == [] && CallLines(input, 2, q) == [];
    assert CallLines(input, 3, q) == [] && CallLines(input, 4, q) == [] && CallLines(input, 5, q) == [];
  }

  /**
   * A cycle appends four lines to each link file, the two directions of
   * the link in schedule order, whatever the reads return, and touches no
   * other file.
   */
  lemma PollCycleContents(fs: Files, input: CycleInput)
    ensures Contents(PollCycle(fs, input), S1S2Log) == Contents(fs, S1S2Log) + LinkPairLines(input, 0)
    ensures Contents(PollCycle(fs, input), S1S3Log) == Contents(fs, S1S3Log) + LinkPairLines(input, 2)
    ensures Contents(PollCycle(fs, input), S2S3Log) == Contents(fs, S2S3Log) + LinkPairLines(input, 4)
    ensures forall q :: q != S1S2Log && q != S1S3Log && q != S2S3Log ==>
      Contents(PollCycle(fs, input), q) == Contents(fs, q)
    ensures AppendOnly(fs, PollCycle(fs, input))
  {
    PollCycleLinkFile(fs, input, 0);
    PollCycleLinkFile(fs, input, 2);
    PollCycleLinkFile(fs, input, 4);
    forall q | q != S1S2Log && q != S1S3Log && q != S2S3Log
      ensures Contents(PollCycle(fs, input), q) == Contents(fs, q)
    {
      PollCycleOtherFile(fs, input, q);
    }
    PollLinksAppendOnly(fs, input.oracle, input.clock, PollSchedule, 0);
  }

  /** A read that fails before any response logs zero packets. */
  ghost predicate AllReadsFail(oracle: CounterOracle) {
    forall s, c, i :: oracle(s, c, i).raises && oracle(s, c, i).responses == []
  }

  /** With every read failing, a link's four lines of a cycle all carry zero packets. */
  lemma FailingPairZero(input: CycleInput, k: nat)
    requires AllReadsFail(input.oracle) && k + 1 < |PollSchedule|
    ensures |LinkPairLines(input, k)| == 4
    ensures forall j :: 0 <= j < 4 ==> LinkPairLines(input, k)[j].packets == 0
  {
    var p, q := PollSchedule[k], PollSchedule[k + 1];
    assert Entities(input.oracle(p.src, IngressTunnelCounter, p.tid).responses) == [];
    assert Entities(input.oracle(p.dst, EgressTunnelCounter, p.tid).responses) == [];
    assert Entities(input.oracle(q.src, IngressTunnelCounter, q.tid).responses) == [];
    assert Entities(input.oracle(q.dst, EgressTunnelCounter, q.tid).responses) == [];
  }

  /** A file that gained zero-packet lines holds zero packets past its old end. */
  lemma AppendedZero(before: seq<LogLine>, after: seq<LogLine>, added: seq<LogLine>)
    requires after == before + added
    requires forall j :: 0 <= j < |added| ==> added[j].packets == 0
    ensures forall k :: |before| <= k < |after| ==> after[k].packets == 0
  {
    forall k | |before| <= k < |after|
      ensures after[k].packets == 0
    {
      assert after[k] == added[k - |before|];
    }
  }

  /**
   * A cycle in which every counter read fails still logs all six tunnels:
   * each link file gains its four lines, each with zero packets.
   */
  lemma FailingReadsDoNotStall(fs: Files, input: CycleInput, k: nat)
    requires AllReadsFail(input.oracle)
    requires k in {0, 2, 4}
    ensures var f := PollSchedule[k].path;
      && |Contents(PollCycle(fs, input), f)| == |Contents(fs, f)| + 4
      && forall j :: |Contents(fs, f)| <= j < |Contents(PollCycle(fs, input), f)| ==>
           Contents(PollCycle(fs, input), f)[j].packets == 0
  {
    var f := PollSchedule[k].path;
    PollCycleLinkFile(fs, input, k);
    FailingPairZero(input, k);
    AppendedZero(Contents(fs, f), Contents(PollCycle(fs, input), f), LinkPairLines(input, k));
  }
}
