/**
 * The controller's life cycle: it empties the three link log files, then
 * opens a session to each switch, claims mastership, loads the P4 program,
 * writes the install sequence, and then runs polling cycles. Sessions and
 * program loading are modelled only as events in the startup trace; the
 * sleep between cycles and the exits on interrupt or RPC failure are not
 * modelled, so a run is a finite sequence of cycles.
 */
module Controller {
  import opened Topology
  import opened Rules
  import opened Provisioning
  import opened ObservationLog
  import opened Polling

  /** One step of startup, in the order the controller takes them. */
  datatype Event =
    | TruncateLog(path: string)
    | Connect(sw: Switch)
    | MasterArbitration(sw: Switch)
    | SetPipeline(sw: Switch)
    | WriteRule(sw: Switch, rule: Rule)

  /** Writing the install sequence, one event per table entry. */
  function RuleWrites(plan: seq<Entry>): (ev: seq<Event>)
    ensures |ev| == |plan|
    ensures forall i :: 0 <= i < |plan| ==> ev[i] == WriteRule(plan[i].sw, plan[i].rule)
  {
    if plan == [] then [] else [WriteRule(plan[0].sw, plan[0].rule)] + RuleWrites(plan[1..])
  }

  /** Before any rule: empty the logs, open the sessions, claim mastership, load the program. */
  const SessionSetup: seq<Event> := [
    TruncateLog(S1S2Log), TruncateLog(S1S3Log), TruncateLog(S2S3Log),
    Connect(S1), Connect(S2), Connect(S3),
    MasterArbitration(S1), MasterArbitration(S2), MasterArbitration(S3),
    SetPipeline(S1), SetPipeline(S2), SetPipeline(S3)
  ]

  /** Startup with a given install sequence: the session setup, then the rule writes. */
  function Startup(plan: seq<Entry>): seq<Event> {
    SessionSetup + RuleWrites(plan)
  }

  /** The controller's startup. */
  function StartupTrace(): seq<Event> {
    Startup(InstallPlan())
  }

  /** What the events do to the log files: truncations empty a file, nothing else touches them. */
  function Replay(fs: Files, trace: seq<Event>): Files
    decreases |trace|
  {
    if trace == [] then fs
    else Replay(if trace[0].TruncateLog? then Truncate(fs, trace[0].path) else fs, trace[1..])
  }

  lemma {:induction false} ReplayAppend(fs: Files, a: seq<Event>, b: seq<Event>)
    ensures Replay(fs, a + b) == Replay(Replay(fs, a), b)
    decreases |a|
  {
    if a != [] {
      assert (a + b)[1..] == a[1..] + b;
      ReplayAppend(if a[0].TruncateLog? then Truncate(fs, a[0].path) else fs, a[1..], b);
    } else {
      assert a + b == b;
    }
  }

  lemma {:induction false} ReplayWithoutTruncation(fs: Files, trace: seq<Event>)
    requires forall i :: 0 <= i < |trace| ==> !trace[i].TruncateLog?
    ensures Replay(fs, trace) == fs
  {
    if trace != [] {
      ReplayWithoutTruncation(fs, trace[1..]);
    }
  }

  /**
   * Every log is emptied before any switch is contacted: the three
   * truncations, one per link file, come first, and nothing after them
   * truncates again.
   */
  lemma TruncationsComeFirst(plan: seq<Entry>)
    ensures |Startup(plan)| == 12 + |plan|
    ensures Startup(plan)[..3] == [TruncateLog(S1S2Log), TruncateLog(S1S3Log), TruncateLog(S2S3Log)]
    ensures forall i :: 3 <= i < |Startup(plan)| ==> !Startup(plan)[i].TruncateLog?
  {
  }

  /**
   * On every switch the session is opened before mastership is claimed,
   * mastership before the program is loaded, and the program is loaded
   * before any rule is written.
   */
  lemma PipelineBeforeRules(plan: seq<Entry>, s: Switch)
    ensures var tr := Startup(plan);
      var c, m, p := 3 + DeviceId(s), 6 + DeviceId(s), 9 + DeviceId(s);
      && tr[c] == Connect(s) && tr[m] == MasterArbitration(s) && tr[p] == SetPipeline(s)
      && forall j :: 0 <= j < |tr| && tr[j].WriteRule? ==> p < j
  {
  }

  /** The rule writes of startup are the install sequence, in order. */
  lemma StartupWritesPlan(plan: seq<Entry>)
    ensures forall k :: 0 <= k < |plan| ==> Startup(plan)[12 + k] == WriteRule(plan[k].sw, plan[k].rule)
  {
  }

  /** Replaying a startup leaves the three link files empty and every other file as found. */
  lemma StartupReplay(fs: Files, plan: seq<Entry>)
    ensures forall f :: f in {S1S2Log, S1S3Log, S2S3Log} ==> f in Replay(fs, Startup(plan)) && Replay(fs, Startup(plan))[f] == []
    ensures forall q :: q !in {S1S2Log, S1S3Log, S2S3Log} ==> Contents(Replay(fs, Startup(plan)), q) == Contents(fs, q)
  {
    var tr := Startup(plan);
    TruncationsComeFirst(plan);
    assert tr == tr[..3] + tr[3..];
    ReplayAppend(fs, tr[..3], tr[3..]);
    ReplayWithoutTruncation(Replay(fs, tr[..3]), tr[3..]);
    var t := tr[..3];
    var fs1 := Truncate(fs, S1S2Log);
    var fs2 := Truncate(fs1, S1S3Log);
    var fs3 := Truncate(fs2, S2S3Log);
    assert t[1..][1..][1..] == [];
    assert Replay(fs3, t[1..][1..][1..]) == fs3;
    assert Replay(fs2, t[1..][1..]) == fs3;
    assert Replay(fs1, t[1..]) == fs3;
    assert Replay(fs, t) == fs3;
    LogNamesDistinct();
  }

  /** The logs right after startup: the three link files exist and are empty; other files are as found. */
  function StartLogs(fs: Files): (r: Files)
    ensures forall f :: f in {S1S2Log, S1S3Log, S2S3Log} ==> f in r && r[f] == []
    ensures forall q :: q !in {S1S2Log, S1S3Log, S2S3Log} ==> Contents(r, q) == Contents(fs, q)
  {
    StartupReplay(fs, InstallPlan());
    Replay(fs, StartupTrace())
  }

  /** Cycles run one after another. */
  function PollCycles(fs: Files, cycles: seq<CycleInput>): Files
    decreases |cycles|
  {
    if cycles == [] then fs else PollCycles(PollCycle(fs, cycles[0]), cycles[1..])
  }

  lemma {:induction false} PollCyclesAppend(fs: Files, a: seq<CycleInput>, b: seq<CycleInput>)
    ensures PollCycles(fs, a + b) == PollCycles(PollCycles(fs, a), b)
    decreases |a|
  {
    if a != [] {
      assert (a + b)[1..] == a[1..] + b;
      PollCyclesAppend(PollCycle(fs, a[0]), a[1..], b);
    } else {
      assert a + b == b;
    }
  }

  /** Polling only appends: every file keeps its old lines as a prefix. */
  lemma {:induction false} PollCyclesAppendOnly(fs: Files, cycles: seq<CycleInput>)
    ensures AppendOnly(fs, PollCycles(fs, cycles))
    decreases |cycles|
  {
    if cycles != [] {
      var fs1 := PollCycle(fs, cycles[0]);
      PollLinksAppendOnly(fs, cycles[0].oracle, cycles[0].clock, PollSchedule, 0);
      PollCyclesAppendOnly(fs1, cycles[1..]);
      AppendOnlyTransitive(fs, fs1, PollCycles(fs1, cycles[1..]));
    }
  }

  /** Each cycle adds four lines to a link file. */
  lemma {:induction false} PollCyclesLinkGrowth(fs: Files, cycles: seq<CycleInput>, f: string)
    requires f in {S1S2Log, S1S3Log, S2S3Log}
    ensures |Contents(PollCycles(fs, cycles), f)| == |Contents(fs, f)| + 4 * |cycles|
    decreases |cycles|
  {
    if cycles != [] {
      var fs1 := PollCycle(fs, cycles[0]);
      var k := if f == S1S2Log then 0 else if f == S1S3Log then 2 else 4;
      PollCycleLinkFile(fs, cycles[0], k);
      assert |LinkPairLines(cycles[0], k)| == 4;
      PollCyclesLinkGrowth(fs1, cycles[1..], f);
    }
  }

  /** Cycles never touch a file that is no link's log. */
  lemma {:induction false} PollCyclesOtherFile(fs: Files, cycles: seq<CycleInput>, q: string)
    requires q !in {S1S2Log, S1S3Log, S2S3Log}
    ensures Contents(PollCycles(fs, cycles), q) == Contents(fs, q)
    decreases |cycles|
  {
    if cycles != [] {
      PollCycleOtherFile(fs, cycles[0], q);
      PollCyclesOtherFile(PollCycle(fs, cycles[0]), cycles[1..], q);
    }
  }

  /**
   * Polling only appends: every file keeps its old lines as a prefix, each
   * link file gains exactly four lines per cycle, and other files never change.
   */
  lemma PollCyclesGrowth(fs: Files, cycles: seq<CycleInput>)
    ensures AppendOnly(fs, PollCycles(fs, cycles))
    ensures forall f :: f in {S1S2Log, S1S3Log, S2S3Log} ==>
      |Contents(PollCycles(fs, cycles), f)| == |Contents(fs, f)| + 4 * |cycles|
    ensures forall q :: q !in {S1S2Log, S1S3Log, S2S3Log} ==>
      Contents(PollCycles(fs, cycles), q) == Contents(fs, q)
  {
    PollCyclesAppendOnly(fs, cycles);
    forall f | f in {S1S2Log, S1S3Log, S2S3Log}
      ensures |Contents(PollCycles(fs, cycles), f)| == |Contents(fs, f)| + 4 * |cycles|
    {
      PollCyclesLinkGrowth(fs, cycles, f);
    }
    forall q | q !in {S1S2Log, S1S3Log, S2S3Log}
      ensures Contents(PollCycles(fs, cycles), q) == Contents(fs, q)
    {
      PollCyclesOtherFile(fs, cycles, q);
    }
  }

  /** A run: start the controller on the files found on disk, then poll the given cycles. */
  function Run(fs: Files, cycles: seq<CycleInput>): Files {
    PollCycles(StartLogs(fs), cycles)
  }

  /**
   * After any number of cycles each link file holds exactly the lines of
   * those cycles, four per cycle and nothing left from before the start,
   * and every file still holds what it held right after startup.
   */
  lemma RunLogs(fs: Files, cycles: seq<CycleInput>)
    ensures forall f :: f in {S1S2Log, S1S3Log, S2S3Log} ==> |Contents(Run(fs, cycles), f)| == 4 * |cycles|
    ensures AppendOnly(StartLogs(fs), Run(fs, cycles))
  {
    var st := StartLogs(fs);
    PollCyclesGrowth(st, cycles);
    forall f | f in {S1S2Log, S1S3Log, S2S3Log}
      ensures |Contents(st, f)| == 0
    {
    }
  }

  /** Polling a longer prefix of the same cycles only adds lines. */
  lemma PrefixAppendOnly(st: Files, cycles: seq<CycleInput>, n: nat, m: nat)
    requires n <= m <= |cycles|
    ensures AppendOnly(PollCycles(st, cycles[..n]), PollCycles(st, cycles[..m]))
  {
    var a, b := cycles[..n], cycles[n..m];
    assert cycles[..m] == a + b;
    PollCyclesAppend(st, a, b);
    PollCyclesAppendOnly(PollCycles(st, a), b);
  }

  /** From one point of a run to any later point the files only grow. */
  lemma RunOnlyAppends(fs: Files, cycles: seq<CycleInput>, n: nat, m: nat)
    requires n <= m <= |cycles|
    ensures AppendOnly(Run(fs, cycles[..n]), Run(fs, cycles[..m]))
  {
    PrefixAppendOnly(StartLogs(fs), cycles, n, m);
  }
}
