/**
 * The observation log files: each file name maps to its lines. A file
 * that does not exist reads as empty, since appending creates it.
 * Lines are kept as structured records; the wording and encoding of the
 * text written to disk are not modelled.
 */
module ObservationLog {

  /** An ISO-8601 wall-clock reading, taken as given. */
  type Timestamp = string

  datatype Direction = Sent | Received

  /** One log line: at `stamp`, switch `switchName` sent or received `packets` packets on tunnel `tid`. */
  datatype LogLine = LogLine(stamp: Timestamp, switchName: string, direction: Direction, packets: nat, tid: nat)

  type Files = map<string, seq<LogLine>>

  /** The lines of file `path`; a missing file has none. */
  function Contents(fs: Files, path: string): seq<LogLine> {
    if path in fs then fs[path] else []
  }

  /** Opening `path` for writing: the file exists afterwards, empty, and no other file changes. */
  function Truncate(fs: Files, path: string): (r: Files)
    ensures path in r && Contents(r, path) == []
    ensures forall p :: p != path ==> Contents(r, p) == Contents(fs, p)
  {
    fs[path := []]
  }

  /** Appending one line to `path`: the line goes last, earlier lines and other files stay. */
  function LogToFile(fs: Files, path: string, line: LogLine): (r: Files)
    ensures path in r && Contents(r, path) == Contents(fs, path) + [line]
    ensures forall p :: p != path ==> Contents(r, p) == Contents(fs, p)
  {
    fs[path := Contents(fs, path) + [line]]
  }

  /** Every file of `before` survives in `after` with its old lines as a prefix: nothing shrank or was rewritten. */
  predicate AppendOnly(before: Files, after: Files) {
    forall p :: p in before ==> p in after && before[p] <= after[p]
  }

  lemma AppendAssociative(a: seq<LogLine>, b: seq<LogLine>, c: seq<LogLine>)
    ensures a + b + c == a + (b + c)
  {
  }

  lemma AppendOnlyTransitive(a: Files, b: Files, c: Files)
    requires AppendOnly(a, b) && AppendOnly(b, c)
    ensures AppendOnly(a, c)
  {
    forall p | p in a
      ensures p in c && a[p] <= c[p]
    {
      assert a[p] <= b[p] <= c[p];
    }
  }

  lemma LogToFileAppendOnly(fs: Files, path: string, line: LogLine)
    ensures AppendOnly(fs, LogToFile(fs, path, line))
  {
  }
}
