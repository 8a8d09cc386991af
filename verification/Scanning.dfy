/** Reading an append-only file line by line, resuming from a stored offset and state. */
module Scanning {
  import opened Domain
  import opened LocalTables

  /** The length of the first line with its newline, if the newline is there. */
  function FirstLine(bytes: string): (r: Option<nat>)
    ensures r.Some? ==> 0 < r.value <= |bytes| && bytes[r.value - 1] == '\n' && '\n' !in bytes[..r.value - 1]
    ensures r.None? ==> '\n' !in bytes
  {
    if |bytes| == 0 then None
    else if bytes[0] == '\n' then Some(1)
    else
      var rest := FirstLine(bytes[1..]);
      if rest.None? then None else Some(rest.value + 1)
  }

  /** The complete lines; an unterminated last line is left alone. */
  function Lines(bytes: string): seq<string>
    decreases |bytes|
  {
    var first := FirstLine(bytes);
    if first.None? then [] else [bytes[..first.value]] + Lines(bytes[first.value..])
  }

  /** How many bytes the complete lines take. */
  function Consumed(bytes: string): (n: nat)
    ensures n <= |bytes|
    decreases |bytes|
  {
    var first := FirstLine(bytes);
    if first.None? then 0 else first.value + Consumed(bytes[first.value..])
  }

  lemma {:induction false} FirstLineUnique(bytes: string, n: nat)
    requires 0 < n <= |bytes| && bytes[n - 1] == '\n' && '\n' !in bytes[..n - 1]
    ensures FirstLine(bytes) == Some(n)
  {
    if n > 1 {
      assert bytes[0] in bytes[..n - 1];
      assert bytes[1..][..n - 2] == bytes[..n - 1][1..];
      FirstLineUnique(bytes[1..], n - 1);
    }
  }

  lemma FirstLineOfGrowth(a: string, b: string)
    requires FirstLine(a).Some?
    ensures
      var n := FirstLine(a).value;
      FirstLine(a + b) == Some(n) && (a + b)[..n] == a[..n] && (a + b)[n..] == a[n..] + b
  {
    var n := FirstLine(a).value;
    assert (a + b)[..n - 1] == a[..n - 1];
    FirstLineUnique(a + b, n);
  }

  lemma LinesFrom(bytes: string, n: nat)
    requires 0 < n <= |bytes| && bytes[n - 1] == '\n' && '\n' !in bytes[..n - 1]
    ensures Lines(bytes) == [bytes[..n]] + Lines(bytes[n..])
    ensures Consumed(bytes) == n + Consumed(bytes[n..])
  {
    FirstLineUnique(bytes, n);
  }

  /** Appending after a complete line leaves the lines, and adds the lines of what was appended. */
  lemma {:induction false} JoinLines(front: string, more: string)
    requires Consumed(front) == |front|
    ensures Lines(front + more) == Lines(front) + Lines(more) && Consumed(front + more) == |front| + Consumed(more)
    decreases |front|
  {
    if |front| == 0 {
      assert front + more == more;
    } else {
      var n := FirstLine(front).value;
      FirstLineOfGrowth(front, more);
      JoinLines(front[n..], more);
      LinesFrom(front, n);
      LinesFrom(front + more, n);
      Regroup([front[..n]], Lines(front[n..]), Lines(more));
    }
  }

  lemma Regroup<T>(a: seq<T>, b: seq<T>, c: seq<T>)
    ensures a + (b + c) == a + b + c
  {
  }

  /** The offset is the end of a complete line. */
  ghost predicate Boundary(file: string, k: nat) {
    k <= |file| && Consumed(file[..k]) == k
  }

  lemma BoundaryGrows(file: string, more: string, k: nat)
    requires Boundary(file, k)
    ensures Boundary(file + more, k) && (file + more)[..k] == file[..k]
  {
    assert (file + more)[..k] == file[..k];
  }

  /** Cutting off the unterminated last line changes nothing. */
  lemma ConsumedAll(bytes: string)
    ensures Lines(bytes[..Consumed(bytes)]) == Lines(bytes)
    ensures Consumed(bytes[..Consumed(bytes)]) == Consumed(bytes)
    decreases |bytes|
  {
    var first := FirstLine(bytes);
    if first.Some? {
      var n, k := first.value, Consumed(bytes);
      ConsumedAll(bytes[n..]);
      CutWithin(bytes, n, k);
      LinesFrom(bytes, n);
      LinesFrom(bytes[..k], n);
    }
  }

  lemma CutWithin(s: string, n: nat, k: nat)
    requires 0 < n <= k <= |s|
    ensures s[..k][..n] == s[..n] && s[..k][n..] == s[n..][..k - n]
    ensures s[..k][..n - 1] == s[..n - 1]
  {
  }

  /** From a boundary, the file reads on as the lines up to there and then the rest. */
  lemma ReadOn(file: string, a: nat)
    requires Boundary(file, a)
    ensures
      var b := a + Consumed(file[a..]);
      Boundary(file, b) && Lines(file[..b]) == Lines(file[..a]) + Lines(file[a..])
  {
    ReadRest(file, a, file[a..], Consumed(file[a..]));
  }

  lemma ReadRest(file: string, a: nat, rest: string, n: nat)
    requires Boundary(file, a) && rest == file[a..] && n == Consumed(rest)
    ensures Boundary(file, a + n) && Lines(file[..a + n]) == Lines(file[..a]) + Lines(rest)
  {
    ConsumedAll(rest);
    TakeMore(file, a, n);
    JoinLines(file[..a], rest[..n]);
  }

  lemma TakeMore(s: string, m: nat, n: nat)
    requires m + n <= |s|
    ensures s[..m] + s[m..][..n] == s[..m + n]
  {
  }

  // ----- Folding lines into a state, events and errors -----

  datatype Scan<S> = Scan(state: S, events: seq<Event>, errors: seq<nat>)

  function Then<S>(scan: Scan<S>, next: Scan<S>): Scan<S> {
    Scan(next.state, scan.events + next.events, scan.errors + next.errors)
  }

  function Continue<S>(step: (S, string) -> Scan<S>, scan: Scan<S>, lines: seq<string>): Scan<S>
    decreases |lines|
  {
    if |lines| == 0 then scan else Continue(step, Then(scan, step(scan.state, lines[0])), lines[1..])
  }

  lemma {:induction false} ContinueConcat<S>(step: (S, string) -> Scan<S>, scan: Scan<S>, a: seq<string>,
                                             b: seq<string>)
    ensures Continue(step, scan, a + b) == Continue(step, Continue(step, scan, a), b)
    decreases |a|
  {
    if |a| == 0 {
      assert a + b == b;
    } else {
      assert (a + b)[1..] == a[1..] + b;
      ContinueConcat(step, Then(scan, step(scan.state, a[0])), a[1..], b);
    }
  }

  /** Earlier events and errors are carried along and nothing else. */
  lemma {:induction false} ContinueCarries<S>(step: (S, string) -> Scan<S>, scan: Scan<S>, lines: seq<string>)
    ensures Continue(step, scan, lines) == Then(scan, Continue(step, Scan(scan.state, [], []), lines))
    decreases |lines|
  {
    if |lines| == 0 {
      assert scan.events + [] == scan.events && scan.errors + [] == scan.errors;
    } else {
      var next := step(scan.state, lines[0]);
      ContinueCarries(step, Then(scan, next), lines[1..]);
      ContinueCarries(step, next, lines[1..]);
      var rest := Continue(step, Scan(next.state, [], []), lines[1..]);
      assert Then(Scan(scan.state, [], []), next) == next;
      assert scan.events + next.events + rest.events == scan.events + (next.events + rest.events);
      assert scan.errors + next.errors + rest.errors == scan.errors + (next.errors + rest.errors);
    }
  }

  /** Everything the complete lines of `bytes` yield from the initial state. */
  function Whole<S>(step: (S, string) -> Scan<S>, init: S, bytes: string): Scan<S> {
    Continue(step, Scan(init, [], []), Lines(bytes))
  }

  /** Resuming at a boundary yields the rest of what one scan of the longer file yields. */
  lemma Resume<S>(step: (S, string) -> Scan<S>, init: S, file: string, a: nat)
    requires Boundary(file, a)
    ensures
      var b := a + Consumed(file[a..]);
      var before := Whole(step, init, file[..a]);
      && Boundary(file, b)
      && Whole(step, init, file[..b]) ==
         Then(before, Continue(step, Scan(before.state, [], []), Lines(file[a..])))
  {
    var before := Whole(step, init, file[..a]);
    ReadOn(file, a);
    ContinueConcat(step, Scan(init, [], []), Lines(file[..a]), Lines(file[a..]));
    ContinueCarries(step, before, Lines(file[a..]));
  }

  // ----- Schedules of scans -----

  /** The file, the stored cursor and events, every cursor ever stored, and scans not yet committed.
      `committed` is the longest committed offset. */
  datatype System<!S> = System(
    file: string, stored: S, table: map<string, Row>, cursors: set<S>, ready: set<Scan<S>>, committed: nat)

  datatype Action<S> =
    | Append(bytes: string)
    | Read(cursor: S)
    | Commit(scan: Scan<S>)
    | Reset

  /** A file scanner: the state it starts from, the offset in a state, and what a line does. */
  datatype Scanner<!S> = Scanner(init: S, offset: S -> nat, step: (S, string) -> Scan<S>)

  ghost predicate Advances<S(!new)>(scanner: Scanner<S>) {
    && scanner.offset(scanner.init) == 0
    && forall s, line :: scanner.offset(scanner.step(s, line).state) == scanner.offset(s) + |line|
  }

  function ReadFrom<S>(scanner: Scanner<S>, file: string, cursor: S): Scan<S>
    requires scanner.offset(cursor) <= |file|
  {
    Continue(scanner.step, Scan(cursor, [], []), Lines(file[scanner.offset(cursor)..]))
  }

  /** One action: the file grows; some scanner reads from a cursor it fetched at any earlier moment; a finished
      scan is committed; the cursors are reset. A crash is a scan that is never committed. */
  ghost predicate Next<S(!new)>(scanner: Scanner<S>, sys: System<S>, action: Action<S>, sys': System<S>) {
    match action
    case Append(bytes) => sys' == sys.(file := sys.file + bytes)
    case Read(cursor) =>
      cursor in sys.cursors && scanner.offset(cursor) <= |sys.file|
      && sys' == sys.(ready := sys.ready + {ReadFrom(scanner, sys.file, cursor)})
    case Commit(scan) =>
      scan in sys.ready
      && sys' == sys.(stored := scan.state, cursors := sys.cursors + {scan.state},
                      table := InsertAll(sys.table, scan.events),
                      committed := if scanner.offset(scan.state) > sys.committed then scanner.offset(scan.state)
                                   else sys.committed)
    case Reset => sys' == sys.(stored := scanner.init)
  }

  ghost predicate Schedule<S(!new)>(scanner: Scanner<S>, trace: seq<System<S>>, actions: seq<Action<S>>) {
    && |trace| == |actions| + 1
    && (exists file :: trace[0] == System(file, scanner.init, map[], {scanner.init}, {}, 0))
    && forall i :: 0 <= i < |actions| ==> Next(scanner, trace[i], actions[i], trace[i + 1])
  }

  /** The cursor is the fold of the complete lines before its offset. */
  ghost predicate Faithful<S>(scanner: Scanner<S>, file: string, cursor: S) {
    && Boundary(file, scanner.offset(cursor))
    && cursor == Whole(scanner.step, scanner.init, file[..scanner.offset(cursor)]).state
  }

  function Events<S>(scanner: Scanner<S>, file: string, k: nat): seq<Event>
    requires k <= |file|
  {
    Whole(scanner.step, scanner.init, file[..k]).events
  }

  /** The scan carries the events between a boundary that has been committed and its own. */
  ghost predicate Stretch<S>(scanner: Scanner<S>, sys: System<S>, scan: Scan<S>, a: nat) {
    && Faithful(scanner, sys.file, scan.state)
    && Boundary(sys.file, a) && a <= sys.committed <= |sys.file|
    && Events(scanner, sys.file, scanner.offset(scan.state)) == Events(scanner, sys.file, a) + scan.events
  }

  ghost predicate Sound<S(!new)>(scanner: Scanner<S>, sys: System<S>) {
    && Boundary(sys.file, sys.committed)
    && sys.stored in sys.cursors && scanner.init in sys.cursors
    && (forall c :: c in sys.cursors ==> Faithful(scanner, sys.file, c) && scanner.offset(c) <= sys.committed)
    && (forall r :: r in sys.ready ==> exists a :: Stretch(scanner, sys, r, a))
    && sys.table == InsertAll(map[], Events(scanner, sys.file, sys.committed))
  }

  lemma OffsetAfter<S(!new)>(scanner: Scanner<S>, scan: Scan<S>, bytes: string)
    requires Advances(scanner)
    ensures scanner.offset(Continue(scanner.step, scan, Lines(bytes)).state) ==
              scanner.offset(scan.state) + Consumed(bytes)
    decreases |bytes|
  {
    var first := FirstLine(bytes);
    if first.Some? {
      var next := Then(scan, scanner.step(scan.state, bytes[..first.value]));
      assert Lines(bytes)[1..] == Lines(bytes[first.value..]);
      OffsetAfter(scanner, next, bytes[first.value..]);
    }
  }

  lemma AppendSound<S(!new)>(scanner: Scanner<S>, sys: System<S>, bytes: string)
    requires Sound(scanner, sys)
    ensures Sound(scanner, sys.(file := sys.file + bytes))
  {
    var sys' := sys.(file := sys.file + bytes);
    forall k: nat | Boundary(sys.file, k)
      ensures Boundary(sys'.file, k) && sys'.file[..k] == sys.file[..k]
    {
      BoundaryGrows(sys.file, bytes, k);
    }
    forall r | r in sys'.ready
      ensures exists a :: Stretch(scanner, sys', r, a)
    {
      var a :| Stretch(scanner, sys, r, a);
      assert Stretch(scanner, sys', r, a);
    }
  }

  lemma ReadStretch<S(!new)>(scanner: Scanner<S>, sys: System<S>, cursor: S)
    requires Advances(scanner) && Sound(scanner, sys) && cursor in sys.cursors
    ensures Stretch(scanner, sys, ReadFrom(scanner, sys.file, cursor), scanner.offset(cursor))
  {
    ReadOffset(scanner, sys.file, cursor);
    ResumeFaithful(scanner, sys.file, cursor);
  }

  lemma ReadOffset<S(!new)>(scanner: Scanner<S>, file: string, cursor: S)
    requires Advances(scanner) && scanner.offset(cursor) <= |file|
    ensures
      var a := scanner.offset(cursor);
      scanner.offset(ReadFrom(scanner, file, cursor).state) == a + Consumed(file[a..])
  {
    OffsetAfter(scanner, Scan(cursor, [], []), file[scanner.offset(cursor)..]);
  }

  lemma ResumeFaithful<S(!new)>(scanner: Scanner<S>, file: string, cursor: S)
    requires Advances(scanner) && Faithful(scanner, file, cursor)
    ensures
      var a := scanner.offset(cursor);
      var scan := ReadFrom(scanner, file, cursor);
      var b := a + Consumed(file[a..]);
      && Boundary(file, b)
      && scan.state == Whole(scanner.step, scanner.init, file[..b]).state
      && Events(scanner, file, b) == Events(scanner, file, a) + scan.events
  {
    Resume(scanner.step, scanner.init, file, scanner.offset(cursor));
  }

  /** Committing a stretch, new or stale, leaves exactly the events of the longest committed prefix. */
  lemma CommitStretch<S(!new)>(scanner: Scanner<S>, sys: System<S>, scan: Scan<S>, a: nat)
    requires Sound(scanner, sys) && Stretch(scanner, sys, scan, a)
    ensures
      var b := scanner.offset(scan.state);
      InsertAll(sys.table, scan.events) ==
      InsertAll(map[], Events(scanner, sys.file, if b > sys.committed then b else sys.committed))
  {
    var b, high := scanner.offset(scan.state), sys.committed;
    var toA, toB, toHigh := Events(scanner, sys.file, a), Events(scanner, sys.file, b), Events(scanner, sys.file, high);
    if b > high {
      EventsGrow(scanner, sys.file, a, high);
      EventsGrow(scanner, sys.file, high, b);
      var overlap, added := toHigh[|toA|..], toB[|toHigh|..];
      assert toHigh == toA + overlap && toB == toHigh + added;
      assert scan.events == overlap + added;
      AlreadyThere(toHigh, overlap);
      InsertAllConcat(sys.table, overlap, added);
      InsertAllConcat(map[], toHigh, added);
    } else {
      EventsGrow(scanner, sys.file, b, high);
      assert toHigh == toB + toHigh[|toB|..];
      assert forall e :: e in scan.events ==> e in toB;
      AlreadyThere(toHigh, scan.events);
    }
  }

  lemma AlreadyThere(all: seq<Event>, some: seq<Event>)
    requires forall e :: e in some ==> e in all
    ensures InsertAll(InsertAll(map[], all), some) == InsertAll(map[], all)
  {
    forall e | e in some
      ensures Present(InsertAll(map[], all), e)
    {
      InsertAllKeeps(map[], all, e);
    }
    InsertPresentNothing(InsertAll(map[], all), some);
  }

  /** More of the file yields more events after the same ones. */
  lemma EventsGrow<S(!new)>(scanner: Scanner<S>, file: string, a: nat, b: nat)
    requires a <= b && Boundary(file, a) && Boundary(file, b)
    ensures Events(scanner, file, a) <= Events(scanner, file, b)
  {
    var part := file[..b];
    assert part[..a] == file[..a] && part == file[..a] + part[a..];
    JoinLines(file[..a], part[a..]);
    ResumeWhole(scanner, part, a);
  }

  lemma ResumeWhole<S(!new)>(scanner: Scanner<S>, file: string, a: nat)
    requires Boundary(file, a) && a + Consumed(file[a..]) == |file|
    ensures Whole(scanner.step, scanner.init, file[..a]).events <= Whole(scanner.step, scanner.init, file).events
  {
    assert file[..|file|] == file;
    Resume(scanner.step, scanner.init, file, a);
  }

  lemma CommitSound<S(!new)>(scanner: Scanner<S>, sys: System<S>, scan: Scan<S>, sys': System<S>)
    requires Sound(scanner, sys) && scan in sys.ready && Next(scanner, sys, Commit(scan), sys')
    ensures Sound(scanner, sys')
  {
    var a :| Stretch(scanner, sys, scan, a);
    CommitStretch(scanner, sys, scan, a);
    forall r | r in sys'.ready
      ensures exists a :: Stretch(scanner, sys', r, a)
    {
      var a :| Stretch(scanner, sys, r, a);
      assert Stretch(scanner, sys', r, a);
    }
  }

  lemma NextSound<S(!new)>(scanner: Scanner<S>, sys: System<S>, action: Action<S>, sys': System<S>)
    requires Advances(scanner) && Sound(scanner, sys) && Next(scanner, sys, action, sys')
    ensures Sound(scanner, sys')
  {
    match action
    case Append(bytes) => AppendSound(scanner, sys, bytes);
    case Read(cursor) =>
      ReadStretch(scanner, sys, cursor);
      forall r | r in sys'.ready
        ensures exists a :: Stretch(scanner, sys', r, a)
      {
        if r in sys.ready {
          var a :| Stretch(scanner, sys, r, a);
          assert Stretch(scanner, sys', r, a);
        } else {
          assert Stretch(scanner, sys', r, scanner.offset(cursor));
        }
      }
    case Commit(scan) => CommitSound(scanner, sys, scan, sys');
    case Reset =>
      forall r | r in sys'.ready
        ensures exists a :: Stretch(scanner, sys', r, a)
      {
        var a :| Stretch(scanner, sys, r, a);
        assert Stretch(scanner, sys', r, a);
      }
  }

  /** After any schedule of appends, overlapping scans, crashes, commits and resets, the stored cursor is the fold
      of the lines before its offset, and the stored events are those of one scan of the longest committed prefix,
      the first event of each key winning. */
  lemma {:induction false} AnySchedule<S(!new)>(scanner: Scanner<S>, trace: seq<System<S>>, actions: seq<Action<S>>,
                                         i: nat)
    requires Advances(scanner) && Schedule(scanner, trace, actions) && i < |trace|
    ensures Sound(scanner, trace[i])
    ensures Faithful(scanner, trace[i].file, trace[i].stored)
    ensures trace[i].table == InsertAll(map[], Events(scanner, trace[i].file, trace[i].committed))
  {
    if i > 0 {
      AnySchedule(scanner, trace, actions, i - 1);
      NextSound(scanner, trace[i - 1], actions[i - 1], trace[i]);
    }
  }
}
