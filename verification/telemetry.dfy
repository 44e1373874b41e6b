/**
 * Reading one tunnel counter. The switch answers a counter read with a
 * stream of responses, each holding zero or more counter entries; the
 * stream may raise an exception after any prefix of its responses (a
 * failure before the first response is the empty prefix). The controller
 * returns the first entry it meets and falls back to zero counts when the
 * stream holds no entry, whether or not it raised.
 */
module Telemetry {
  import opened Wrappers
  import opened Topology

  datatype CounterData = CounterData(packetCount: nat, byteCount: nat)

  /** The reading reported when no counter entry arrives. */
  const Zero := CounterData(0, 0)

  datatype ReadResponse = ReadResponse(entities: seq<CounterData>)

  /** The responses a read yields before it ends, and whether it ends by raising. */
  datatype CounterStream = CounterStream(responses: seq<ReadResponse>, raises: bool)

  datatype CounterName = IngressTunnelCounter | EgressTunnelCounter

  function CounterFullName(c: CounterName): string {
    match c
    case IngressTunnelCounter => "MyIngress.ingressTunnelCounter"
    case EgressTunnelCounter => "MyIngress.egressTunnelCounter"
  }

  /** The two counters have distinct P4 names, so the symbolic counter stands for its name. */
  lemma CounterNameInjective(a: CounterName, b: CounterName)
    ensures CounterFullName(a) == CounterFullName(b) <==> a == b
  {
  }

  /** What the switches answer: the stream a read of counter `c` at index `i` on switch `s` yields. */
  type CounterOracle = (Switch, CounterName, nat) -> CounterStream

  /** All counter entries of the responses, in arrival order. */
  function Entities(rs: seq<ReadResponse>): seq<CounterData> {
    if rs == [] then [] else rs[0].entities + Entities(rs[1..])
  }

  lemma {:induction false} EntitiesAppend(a: seq<ReadResponse>, b: seq<ReadResponse>)
    ensures Entities(a + b) == Entities(a) + Entities(b)
  {
    if a == [] {
      assert a + b == b;
    } else {
      assert (a + b)[1..] == a[1..] + b;
      EntitiesAppend(a[1..], b);
    }
  }

  /** Walks the responses and stops at the first entry, as the nested loops of the read do. */
  function FirstEntity(rs: seq<ReadResponse>): (found: Option<CounterData>)
    ensures found.Some? <==> |Entities(rs)| > 0
    ensures found.Some? ==> found.value == Entities(rs)[0]
  {
    if rs == [] then None
    else if |rs[0].entities| > 0 then Some(rs[0].entities[0])
    else FirstEntity(rs[1..])
  }

  /**
   * The (packet, byte) reading of one counter: the first entry the read
   * yields, or zero counts when it yields none, even if it raised. A
   * failure is never passed on to the caller.
   */
  function ReadCounter(stream: CounterStream): (c: CounterData)
    ensures |Entities(stream.responses)| > 0 ==> c == Entities(stream.responses)[0]
    ensures |Entities(stream.responses)| == 0 ==> c == Zero
  {
    match FirstEntity(stream.responses)
    case Some(entry) => entry
    case None => Zero
  }

  /**
   * Once an entry has arrived the read has returned: whatever the stream
   * would have yielded afterwards, further responses or an exception,
   * does not change the reading.
   */
  lemma ReadCounterStopsAtFirstEntry(rs: seq<ReadResponse>, later: seq<ReadResponse>, raises: bool, raisesLater: bool)
    requires |Entities(rs)| > 0
    ensures ReadCounter(CounterStream(rs + later, raisesLater)) == ReadCounter(CounterStream(rs, raises))
  {
    EntitiesAppend(rs, later);
  }

  /** A read that raises before any entry arrives reads as zero counts. */
  lemma FailedReadIsZero(stream: CounterStream)
    requires stream.raises && |Entities(stream.responses)| == 0
    ensures ReadCounter(stream) == Zero
  {
  }
}
