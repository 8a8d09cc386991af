/** The scanning passes of the programs: from a stored cursor through a scanner to a commit. */
module Agent {
  import opened Domain
  import opened LocalTables
  import opened Scanning
  import opened Transcript
  import LocalStore
  import Metrics
  import Parser

  /** From a cursor where one scan of the file would be, a pass reaches the end of the last complete line, with the
      events in between. */
  ghost predicate Passed<S(!new)>(scanner: Scanner<S>, bytes: string, start: S, end: S, added: seq<Event>) {
    && Faithful(scanner, bytes, start) && Faithful(scanner, bytes, end)
    && scanner.offset(end) == Consumed(bytes)
    && Events(scanner, bytes, scanner.offset(end)) == Events(scanner, bytes, scanner.offset(start)) + added
  }

  lemma PassFaithful<S(!new)>(scanner: Scanner<S>, bytes: string, start: S)
    requires Advances(scanner) && Faithful(scanner, bytes, start)
    ensures
      var scan := ReadFrom(scanner, bytes, start);
      Passed(scanner, bytes, start, scan.state, scan.events)
  {
    ReachesEnd(bytes, scanner.offset(start));
    ReadOffset(scanner, bytes, start);
    ResumeFaithful(scanner, bytes, start);
    BoundaryFaithful(scanner, bytes, start);
  }

  lemma BoundaryFaithful<S(!new)>(scanner: Scanner<S>, bytes: string, start: S)
    requires Advances(scanner) && Faithful(scanner, bytes, start)
    ensures Faithful(scanner, bytes, ReadFrom(scanner, bytes, start).state)
  {
    ReadOffset(scanner, bytes, start);
    ResumeFaithful(scanner, bytes, start);
  }

  lemma ReachesEnd(bytes: string, a: nat)
    requires Boundary(bytes, a)
    ensures Consumed(bytes) == a + Consumed(bytes[a..])
  {
    assert bytes == bytes[..a] + bytes[a..];
    JoinLines(bytes[..a], bytes[a..]);
  }

  /** One pass of the agent over a transcript: if the stored cursor is absent or where one scan of the file would be,
      so is the new one, at the end of the last complete line. The events in between are inserted, and each failed line
      records an error at the new offset. */
  method ScanTranscript(store: LocalStore.Store, config: Config, path: string, bytes: string, identity: string)
      returns (ghost added: seq<Event>)
    modifies store`events, store`cursors, store`parserErrors
    ensures store.events == InsertAll(old(store.events), added)
    ensures path in store.cursors && store.cursors == old(store.cursors)[path := store.cursors[path]]
    ensures
      var scanner := Parser.TranscriptScanner(config, identity);
      var stored := if path in old(store.cursors) then old(store.cursors)[path] else NO_CURSOR;
      stored == NO_CURSOR || Faithful(scanner, bytes, stored) ==>
        Passed(scanner, bytes, Parser.Opened(stored, identity, |bytes|), store.cursors[path], added)
    ensures old(store.parserErrors) <= store.parserErrors
    ensures forall i :: |old(store.parserErrors)| <= i < |store.parserErrors| ==>
              store.parserErrors[i] == (path, store.cursors[path].byteOffset)
  {
    var stored := store.CursorFor(path);
    var cursor, events, errors := Parser.ParseFile(config, bytes, identity, stored);
    for i := 0 to |errors|
      invariant store.events == old(store.events) && store.cursors == old(store.cursors)
      invariant |store.parserErrors| == |old(store.parserErrors)| + i && old(store.parserErrors) <= store.parserErrors
      invariant forall k :: |old(store.parserErrors)| <= k < |store.parserErrors| ==>
                  store.parserErrors[k] == (path, cursor.byteOffset)
    {
      store.RecordParserError(path, cursor.byteOffset);
    }
    store.CommitParsed(path, cursor, events);
    added := events;
    ghost var scanner := Parser.TranscriptScanner(config, identity);
    if stored == NO_CURSOR || Faithful(scanner, bytes, stored) {
      Parser.OpenedFaithful(config, identity, bytes, stored);
      Parser.ScannerAdvances(config, identity);
      PassFaithful(scanner, bytes, Parser.Opened(stored, identity, |bytes|));
    }
  }

  /** The hook's pass over a transcript's token counters. */
  method ScanMetrics(store: LocalStore.Store, config: Config, cutover: Time, path: string, bytes: string,
                     identity: string)
      returns (ghost added: seq<Event>)
    modifies store`events, store`metricCursors
    ensures store.events == InsertAll(old(store.events), added)
    ensures path in store.metricCursors
              && store.metricCursors == old(store.metricCursors)[path := store.metricCursors[path]]
    ensures
      var scanner := Metrics.MetricScanner(config, cutover, identity);
      var stored := if path in old(store.metricCursors) then old(store.metricCursors)[path] else NO_METRIC_CURSOR;
      stored == NO_METRIC_CURSOR || Faithful(scanner, bytes, stored) ==>
        Passed(scanner, bytes, Metrics.Opened(stored, identity, |bytes|), store.metricCursors[path], added)
  {
    var stored := store.MetricCursorFor(path);
    var cursor, events := Metrics.ScanFile(config, cutover, bytes, identity, stored);
    store.CommitMetrics(path, cursor, events);
    added := events;
    ghost var scanner := Metrics.MetricScanner(config, cutover, identity);
    if stored == NO_METRIC_CURSOR || Faithful(scanner, bytes, stored) {
      Metrics.OpenedFaithful(config, cutover, identity, bytes, stored);
      PassFaithful(scanner, bytes, Metrics.Opened(stored, identity, |bytes|));
    }
  }
}
