/** The run event log of src/freeweight/services/events.py: writers that read max + 1 and commit
    against a uniqueness constraint, and subscribers that poll what follows what they have seen. */
module RunEvents {
  import opened Ordering

  const MAX_SEQUENCE_RETRIES := 8

  type RunId = nat
  type WriterId = nat
  type ReaderId = nat

  datatype Row = Row(run: RunId, sequence: nat, writer: WriterId, event: string)

  const RUN_EVENT_TYPES: set<string> := {
    "run.started", "run.progress", "run.completed", "run.failed", "run.cancelled", "run.interrupted",
    "run.degraded", "test.started", "test.progress", "test.completed", "test.skipped",
    "sample.started", "sample.completed", "sample.failed"}

  // ---------------------------------------------------------------------------------------
  // The stored table and its two reads
  // ---------------------------------------------------------------------------------------

  /** max(sequence) of one run, 0 when it has no event */
  function Highest(rows: seq<Row>, run: RunId): nat {
    if rows == [] then 0
    else
      var front, last := Highest(rows[..|rows| - 1], run), rows[|rows| - 1];
      if last.run == run && last.sequence > front then last.sequence else front
  }

  predicate Taken(rows: seq<Row>, run: RunId, sequence: nat) {
    exists i :: 0 <= i < |rows| && rows[i].run == run && rows[i].sequence == sequence
  }

  /** The events of one run after a sequence, in commit order. */
  function Since(rows: seq<Row>, run: RunId, after: nat): seq<Row> {
    if rows == [] then []
    else
      var front, last := Since(rows[..|rows| - 1], run, after), rows[|rows| - 1];
      if last.run == run && last.sequence > after then front + [last] else front
  }

  function BySequence(r: Row): real { r.sequence as real }

  function Take(rows: seq<Row>, limit: nat): seq<Row> {
    if limit <= |rows| then rows[..limit] else rows
  }

  /** One batch: the events after a sequence, ascending, at most limit of them. */
  function ListSince(rows: seq<Row>, run: RunId, after: nat, limit: nat): seq<Row> {
    Take(SortBy(Since(rows, run, after), BySequence), limit)
  }

  /** A run's log: its events in commit order. */
  function LogOf(rows: seq<Row>, run: RunId): seq<Row> {
    if rows == [] then []
    else
      var front, last := LogOf(rows[..|rows| - 1], run), rows[|rows| - 1];
      if last.run == run then front + [last] else front
  }

  // ---------------------------------------------------------------------------------------
  // Gap-free logs
  // ---------------------------------------------------------------------------------------

  /** The i-th committed event of every run carries sequence i + 1. */
  ghost predicate GapFree(rows: seq<Row>) {
    forall run, i :: 0 <= i < |LogOf(rows, run)| ==> LogOf(rows, run)[i].sequence == i + 1
  }

  lemma {:induction false} LogRows(rows: seq<Row>, run: RunId)
    ensures forall i :: 0 <= i < |LogOf(rows, run)| ==> LogOf(rows, run)[i].run == run && LogOf(rows, run)[i] in rows
    ensures forall i :: 0 <= i < |rows| && rows[i].run == run ==> rows[i] in LogOf(rows, run)
  {
    if rows != [] {
      LogRows(rows[..|rows| - 1], run);
      assert rows == rows[..|rows| - 1] + [rows[|rows| - 1]];
    }
  }

  /** A last row of the run is the last entry of its log. */
  lemma LastIsNext(rows: seq<Row>, run: RunId)
    requires rows != [] && rows[|rows| - 1].run == run
    ensures var front := LogOf(rows[..|rows| - 1], run);
            |LogOf(rows, run)| == |front| + 1 && LogOf(rows, run)[|front|] == rows[|rows| - 1]
  {
  }

  lemma {:induction false} HighestIsLength(rows: seq<Row>, run: RunId)
    requires forall i :: 0 <= i < |LogOf(rows, run)| ==> LogOf(rows, run)[i].sequence == i + 1
    ensures Highest(rows, run) == |LogOf(rows, run)|
  {
    if rows != [] {
      var front := rows[..|rows| - 1];
      assert forall i :: 0 <= i < |LogOf(front, run)| ==> LogOf(front, run)[i] == LogOf(rows, run)[i];
      HighestIsLength(front, run);
      if rows[|rows| - 1].run == run {
        LastIsNext(rows, run);
      }
    }
  }

  lemma TakenExactly(rows: seq<Row>, run: RunId, sequence: nat)
    requires GapFree(rows)
    ensures Taken(rows, run, sequence) <==> 1 <= sequence <= |LogOf(rows, run)|
  {
    LogRows(rows, run);
    var log := LogOf(rows, run);
    if Taken(rows, run, sequence) {
      var i :| 0 <= i < |rows| && rows[i].run == run && rows[i].sequence == sequence;
      assert rows[i] in log;
      var k :| 0 <= k < |log| && log[k] == rows[i];
    }
    if 1 <= sequence <= |log| {
      assert log[sequence - 1] in rows;
      var i :| 0 <= i < |rows| && rows[i] == log[sequence - 1];
    }
  }

  /** A commit at the sequence after the last keeps every log gap-free and extends one by one event. */
  lemma CommitKeeps(rows: seq<Row>, row: Row)
    requires GapFree(rows) && row.sequence == |LogOf(rows, row.run)| + 1
    ensures GapFree(rows + [row])
    ensures forall run :: LogOf(rows + [row], run) == LogOf(rows, run) + if run == row.run then [row] else []
  {
    assert (rows + [row])[..|rows|] == rows;
    forall run ensures LogOf(rows + [row], run) == LogOf(rows, run) + if run == row.run then [row] else [] {
    }
  }

  lemma {:induction false} SinceIsSuffix(rows: seq<Row>, run: RunId, after: nat)
    requires forall i :: 0 <= i < |LogOf(rows, run)| ==> LogOf(rows, run)[i].sequence == i + 1
    ensures Since(rows, run, after) == if after <= |LogOf(rows, run)| then LogOf(rows, run)[after..] else []
  {
    if rows != [] {
      var front := rows[..|rows| - 1];
      assert forall i :: 0 <= i < |LogOf(front, run)| ==> LogOf(front, run)[i] == LogOf(rows, run)[i];
      SinceIsSuffix(front, run, after);
      if rows[|rows| - 1].run == run {
        LastIsNext(rows, run);
      }
    }
  }

  lemma {:induction false} SortOfSorted<T>(xs: seq<T>, key: T -> real)
    requires SortedBy(xs, key)
    ensures SortBy(xs, key) == xs
  {
    if xs != [] {
      SortOfSorted(xs[..|xs| - 1], key);
    }
  }

  function Lesser(a: nat, b: nat): nat { if a <= b then a else b }

  /** On a gap-free log, a batch is exactly the next stretch of it: as much as the limit admits or as is left. */
  lemma BatchIsStretch(rows: seq<Row>, run: RunId, after: nat, limit: nat)
    requires GapFree(rows) && after <= |LogOf(rows, run)|
    ensures var batch := ListSince(rows, run, after, limit);
            after + |batch| <= |LogOf(rows, run)| && batch == LogOf(rows, run)[after..after + |batch|]
    ensures |ListSince(rows, run, after, limit)| == Lesser(limit, |LogOf(rows, run)| - after)
    ensures limit > 0 && after < |LogOf(rows, run)| ==> ListSince(rows, run, after, limit) != []
  {
    hide LogOf, Since, ListSince, Take;
    var log := LogOf(rows, run);
    GapFreeLog(rows, run);
    hide GapFree;
    SinceIsSuffix(rows, run, after);
    BatchIsTake(rows, run, after, limit, log);
    TakeIsStretch(log, after, limit);
  }

  lemma GapFreeLog(rows: seq<Row>, run: RunId)
    requires GapFree(rows)
    ensures forall i :: 0 <= i < |LogOf(rows, run)| ==> LogOf(rows, run)[i].sequence == i + 1
  {
    hide LogOf;
  }

  lemma BatchIsTake(rows: seq<Row>, run: RunId, after: nat, limit: nat, log: seq<Row>)
    requires after <= |log| && Since(rows, run, after) == log[after..]
    requires forall i :: 0 <= i < |log| ==> log[i].sequence == i + 1
    ensures ListSince(rows, run, after, limit) == Take(log[after..], limit)
  {
    hide SortBy, Since;
    SuffixSorted(log, after);
    SortOfSorted(log[after..], BySequence);
  }

  lemma TakeIsStretch(log: seq<Row>, after: nat, limit: nat)
    requires after <= |log|
    ensures var batch := Take(log[after..], limit);
            && after + |batch| <= |log| && batch == log[after..after + |batch|]
            && |batch| == Lesser(limit, |log| - after)
            && (limit > 0 && after < |log| ==> batch != [])
  {
  }

  lemma SuffixSorted(log: seq<Row>, after: nat)
    requires after <= |log| && forall i :: 0 <= i < |log| ==> log[i].sequence == i + 1
    ensures SortedBy(log[after..], BySequence)
  {
    forall i, j | 0 <= i < j < |log| - after ensures BySequence(log[after..][i]) <= BySequence(log[after..][j]) {
      assert log[after..][i] == log[after + i] && log[after..][j] == log[after + j];
    }
  }

  // ---------------------------------------------------------------------------------------
  // The system: any number of writers and subscribers, interleaved step by step
  // ---------------------------------------------------------------------------------------

  /** Where one call of publish stands. start is the length of the run's log when the call began,
      tried the sequences it has read so far, the last of them the one in hand. */
  datatype Writer =
    | Idle
    | Holding(run: RunId, event: string, start: nat, tried: seq<nat>)
    | Collided(run: RunId, event: string, start: nat, tried: seq<nat>)
    | Exhausted(run: RunId, start: nat, tried: seq<nat>)

  /** lastSeen is the Last-Event-ID the client holds; pending the rest of the batch on its way. */
  datatype Reader = Reader(run: RunId, lastSeen: nat, pending: seq<Row>, received: seq<Row>)

  datatype System = System(rows: seq<Row>, writers: map<WriterId, Writer>, readers: map<ReaderId, Reader>)

  datatype Action =
    | Begin(writer: WriterId, run: RunId, event: string)   // the first read of max + 1
    | Commit(writer: WriterId)                             // insert, or lose to the constraint
    | Reread(writer: WriterId)                             // the retry's fresh read
    | Subscribe(reader: ReaderId, run: RunId)
    | Poll(reader: ReaderId, limit: nat)
    | Deliver(reader: ReaderId)
    | Reconnect(reader: ReaderId)                          // the undelivered part of a batch is lost

  function WriterOf(s: System, w: WriterId): Writer { if w in s.writers then s.writers[w] else Idle }

  function Attempt(rows: seq<Row>, w: WriterId, p: Writer): (seq<Row>, Writer)
    requires p.Holding? && p.tried != []
  {
    var next := p.tried[|p.tried| - 1];
    if !Taken(rows, p.run, next) then (rows + [Row(p.run, next, w, p.event)], Idle)
    else if |p.tried| < MAX_SEQUENCE_RETRIES then (rows, Collided(p.run, p.event, p.start, p.tried))
    else (rows, Exhausted(p.run, p.start, p.tried))
  }

  function After(s: System, a: Action): System {
    match a
    case Begin(w, run, event) =>
      var p := WriterOf(s, w);
      if (p.Idle? || p.Exhausted?) && event in RUN_EVENT_TYPES then
        s.(writers := s.writers[w := Holding(run, event, Highest(s.rows, run), [Highest(s.rows, run) + 1])])
      else s
    case Commit(w) =>
      var p := WriterOf(s, w);
      if p.Holding? && p.tried != [] then
        var (rows, p') := Attempt(s.rows, w, p);
        s.(rows := rows, writers := s.writers[w := p'])
      else s
    case Reread(w) =>
      var p := WriterOf(s, w);
      if p.Collided? then
        s.(writers := s.writers[w := Holding(p.run, p.event, p.start, p.tried + [Highest(s.rows, p.run) + 1])])
      else s
    case Subscribe(r, run) => s.(readers := s.readers[r := Reader(run, 0, [], [])])
    case Poll(r, limit) =>
      if r in s.readers && s.readers[r].pending == [] then
        var c := s.readers[r];
        s.(readers := s.readers[r := c.(pending := ListSince(s.rows, c.run, c.lastSeen, limit))])
      else s
    case Deliver(r) =>
      if r in s.readers && s.readers[r].pending != [] then
        var c := s.readers[r];
        s.(readers := s.readers[r := Reader(c.run, c.pending[0].sequence, c.pending[1..], c.received + [c.pending[0]])])
      else s
    case Reconnect(r) =>
      if r in s.readers then s.(readers := s.readers[r := s.readers[r].(pending := [])]) else s
  }

  function Run(actions: seq<Action>): System {
    if actions == [] then System([], map[], map[]) else After(Run(actions[..|actions| - 1]), actions[|actions| - 1])
  }

  // ---------------------------------------------------------------------------------------
  // What every step keeps
  // ---------------------------------------------------------------------------------------

  ghost predicate Rising(tried: seq<nat>, low: nat, high: nat) {
    && (forall i :: 0 <= i < |tried| ==> low < tried[i] <= high)
    && (forall i, j :: 0 <= i < j < |tried| ==> tried[i] < tried[j])
  }

  /** Since the call began, no event of this writer entered the run's log. */
  ghost predicate OthersSince(log: seq<Row>, start: nat, w: WriterId) {
    start <= |log| && forall i :: start <= i < |log| ==> log[i].writer != w
  }

  ghost predicate WriterInv(rows: seq<Row>, w: WriterId, p: Writer) {
    match p
    case Idle => true
    case Holding(run, event, start, tried) =>
      var log := LogOf(rows, run);
      && OthersSince(log, start, w)
      && 0 < |tried| <= MAX_SEQUENCE_RETRIES
      && Rising(tried, start, |log| + 1)
      && Rising(tried[..|tried| - 1], start, |log|)
    case Collided(run, event, start, tried) =>
      var log := LogOf(rows, run);
      OthersSince(log, start, w) && 0 < |tried| < MAX_SEQUENCE_RETRIES && Rising(tried, start, |log|)
    case Exhausted(run, start, tried) =>
      // later calls of the same writer may append, so this says what held when the call failed
      |tried| == MAX_SEQUENCE_RETRIES && Rising(tried, start, |LogOf(rows, run)|)
  }

  ghost predicate ReaderInv(rows: seq<Row>, c: Reader) {
    var log := LogOf(rows, c.run);
    && c.lastSeen + |c.pending| <= |log|
    && c.received == log[..c.lastSeen]
    && c.pending == log[c.lastSeen..c.lastSeen + |c.pending|]
  }

  ghost predicate Inv(s: System) {
    && GapFree(s.rows)
    && (forall w :: w in s.writers ==> WriterInv(s.rows, w, s.writers[w]))
    && (forall r :: r in s.readers ==> ReaderInv(s.rows, s.readers[r]))
  }

  /** Another writer's commit disturbs neither a writer nor a subscriber. */
  lemma CommitDisturbsNone(rows: seq<Row>, row: Row, w: WriterId, p: Writer)
    requires GapFree(rows) && row.sequence == |LogOf(rows, row.run)| + 1
    requires WriterInv(rows, w, p) && w != row.writer
    ensures WriterInv(rows + [row], w, p)
  {
    CommitKeeps(rows, row);
  }

  lemma CommitExtends(rows: seq<Row>, row: Row, c: Reader)
    requires GapFree(rows) && row.sequence == |LogOf(rows, row.run)| + 1 && ReaderInv(rows, c)
    ensures ReaderInv(rows + [row], c)
  {
    CommitKeeps(rows, row);
  }

  /** One attempt either commits exactly the next sequence, or collides having learnt that its
      sequence is no longer free. */
  lemma AttemptKeeps(rows: seq<Row>, w: WriterId, p: Writer)
    requires GapFree(rows) && p.Holding? && WriterInv(rows, w, p)
    ensures var (rows', p') := Attempt(rows, w, p);
            && WriterInv(rows', w, p')
            && (rows' == rows || rows' == rows + [Row(p.run, |LogOf(rows, p.run)| + 1, w, p.event)])
  {
    var next := p.tried[|p.tried| - 1];
    TakenExactly(rows, p.run, next);
  }

  lemma BeginKeeps(rows: seq<Row>, w: WriterId, run: RunId, event: string)
    requires GapFree(rows)
    ensures WriterInv(rows, w, Holding(run, event, Highest(rows, run), [Highest(rows, run) + 1]))
  {
    HighestIsLength(rows, run);
  }

  lemma RereadKeeps(rows: seq<Row>, w: WriterId, p: Writer)
    requires GapFree(rows) && p.Collided? && WriterInv(rows, w, p)
    ensures WriterInv(rows, w, Holding(p.run, p.event, p.start, p.tried + [Highest(rows, p.run) + 1]))
  {
    HighestIsLength(rows, p.run);
    var tried := p.tried + [Highest(rows, p.run) + 1];
    assert tried[..|tried| - 1] == p.tried;
  }

  lemma DeliverKeeps(rows: seq<Row>, c: Reader)
    requires GapFree(rows) && ReaderInv(rows, c) && c.pending != []
    ensures ReaderInv(rows, Reader(c.run, c.pending[0].sequence, c.pending[1..], c.received + [c.pending[0]]))
  {
    var log := LogOf(rows, c.run);
    assert c.pending[0] == log[c.lastSeen];
    assert c.pending[0].sequence == c.lastSeen + 1;
  }

  lemma StepKeeps(s: System, a: Action)
    requires Inv(s)
    ensures Inv(After(s, a))
  {
    hide GapFree, WriterInv, ReaderInv, Highest, ListSince;
    match a
    case Begin(w, run, event) => BeginKeeps(s.rows, w, run, event);
    case Commit(w) =>
      var p := WriterOf(s, w);
      if p.Holding? && p.tried != [] {
        CommitStepKeeps(s, w, p);
      }
    case Reread(w) =>
      var p := WriterOf(s, w);
      if p.Collided? {
        RereadKeeps(s.rows, w, p);
      }
    case Subscribe(r, run) => NewReader(s.rows, run);
    case Poll(r, limit) =>
      if r in s.readers && s.readers[r].pending == [] {
        PollKeeps(s.rows, s.readers[r], limit);
      }
    case Deliver(r) =>
      if r in s.readers && s.readers[r].pending != [] {
        DeliverKeeps(s.rows, s.readers[r]);
      }
    case Reconnect(r) =>
      if r in s.readers {
        ReconnectKeeps(s.rows, s.readers[r]);
      }
  }

  lemma NewReader(rows: seq<Row>, run: RunId)
    ensures ReaderInv(rows, Reader(run, 0, [], []))
  {
  }

  lemma PollKeeps(rows: seq<Row>, c: Reader, limit: nat)
    requires GapFree(rows) && ReaderInv(rows, c)
    ensures ReaderInv(rows, c.(pending := ListSince(rows, c.run, c.lastSeen, limit)))
  {
    BatchIsStretch(rows, c.run, c.lastSeen, limit);
  }

  lemma ReconnectKeeps(rows: seq<Row>, c: Reader)
    requires ReaderInv(rows, c)
    ensures ReaderInv(rows, c.(pending := []))
  {
  }

  lemma CommitStepKeeps(s: System, w: WriterId, p: Writer)
    requires Inv(s) && w in s.writers && p == s.writers[w] && p.Holding? && p.tried != []
    ensures Inv(After(s, Commit(w)))
  {
    var (rows, p') := Attempt(s.rows, w, p);
    AttemptKeeps(s.rows, w, p);
    if rows != s.rows {
      var row := Row(p.run, |LogOf(s.rows, p.run)| + 1, w, p.event);
      CommitKeeps(s.rows, row);
      forall v | v in s.writers && v != w ensures WriterInv(rows, v, s.writers[v]) {
        CommitDisturbsNone(s.rows, row, v, s.writers[v]);
      }
      forall r | r in s.readers ensures ReaderInv(rows, s.readers[r]) {
        CommitExtends(s.rows, row, s.readers[r]);
      }
    }
    hide GapFree, WriterInv, ReaderInv, Attempt;
  }

  lemma {:induction false} RunKeeps(actions: seq<Action>)
    ensures Inv(Run(actions))
  {
    if actions != [] {
      RunKeeps(actions[..|actions| - 1]);
      StepKeeps(Run(actions[..|actions| - 1]), actions[|actions| - 1]);
    }
  }

  // ---------------------------------------------------------------------------------------
  // The promises
  // ---------------------------------------------------------------------------------------

  /** Under any interleaving, a run's committed sequences are exactly 1..n, in commit order. */
  lemma SequencesAreGapFree(actions: seq<Action>, run: RunId, i: nat)
    requires i < |LogOf(Run(actions).rows, run)|
    ensures LogOf(Run(actions).rows, run)[i].sequence == i + 1
  {
    RunKeeps(actions);
    hide Run;
  }

  /** Whatever it polled, in whatever batches and over whatever reconnections, a subscriber has
      received exactly the beginning of its run's log, up to the event it would resume after. */
  lemma SubscribersSeeAPrefix(actions: seq<Action>, r: ReaderId)
    requires r in Run(actions).readers
    ensures var s := Run(actions);
            var c := s.readers[r];
            c.lastSeen <= |LogOf(s.rows, c.run)| && c.received == LogOf(s.rows, c.run)[..c.lastSeen]
  {
    RunKeeps(actions);
    hide Run;
  }

  /** The sequences one call of publish tries strictly increase; and when an attempt exhausts the
      retries, at least eight events of that run were committed by other writers during the call. */
  lemma ExhaustionNeedsContention(actions: seq<Action>, w: WriterId)
    requires var s := Run(actions); WriterOf(s, w).Holding? && WriterOf(After(s, Commit(w)), w).Exhausted?
    ensures var s := Run(actions);
            var p := WriterOf(s, w);
            var log := LogOf(s.rows, p.run);
            && (forall i, j :: 0 <= i < j < |p.tried| ==> p.tried[i] < p.tried[j])
            && p.start + MAX_SEQUENCE_RETRIES <= |log|
            && (forall i :: p.start <= i < |log| ==> log[i].writer != w && log[i].run == p.run)
  {
    RunKeeps(actions);
    var s := Run(actions);
    hide Run;
    var p := WriterOf(s, w);
    assert WriterInv(s.rows, w, p);
    TakenExactly(s.rows, p.run, p.tried[|p.tried| - 1]);
    LogRows(s.rows, p.run);
    RisingSpan(p.tried, p.start, |LogOf(s.rows, p.run)|);
  }

  /** k strictly rising values above low end at low + k or later. */
  lemma {:induction false} RisingSpan(tried: seq<nat>, low: nat, high: nat)
    requires Rising(tried, low, high) && low <= high
    ensures low + |tried| <= high
  {
    if tried != [] {
      var n := |tried| - 1;
      RisingSpan(tried[..n], low, tried[n] - 1);
    }
  }

  /** A run's log is its rows, each as often as it is stored. */
  lemma {:induction false} LogIs(rows: seq<Row>, run: RunId, r: Row)
    ensures multiset(LogOf(rows, run))[r] == if r.run == run then multiset(rows)[r] else 0
  {
    if rows != [] {
      var n := |rows| - 1;
      LogIs(rows[..n], run, r);
      assert rows == rows[..n] + [rows[n]];
    }
  }

  lemma OneMoreAction(actions: seq<Action>, a: Action)
    ensures Run(actions + [a]) == After(Run(actions), a)
  {
    hide After;
    assert (actions + [a])[..|actions|] == actions;
  }

  /** A writer with no other commit to its run since it read the highest sequence stores its event, next in the log. */
  lemma UndisturbedCommitStores(actions: seq<Action>, w: WriterId)
    requires var s := Run(actions);
             var p := WriterOf(s, w);
             p.Holding? && p.tried != [] && p.tried[|p.tried| - 1] == |LogOf(s.rows, p.run)| + 1
    ensures var s, s' := Run(actions), Run(actions + [Commit(w)]);
            var p := WriterOf(s, w);
            s'.rows == s.rows + [Row(p.run, |LogOf(s.rows, p.run)| + 1, w, p.event)] && WriterOf(s', w) == Idle
  {
    RunIsGapFree(actions);
    OneMoreAction(actions, Commit(w));
    hide Run, LogOf, GapFree, Taken;
    var s := Run(actions);
    var p := WriterOf(s, w);
    TakenExactly(s.rows, p.run, p.tried[|p.tried| - 1]);
  }

  lemma HighestNow(actions: seq<Action>, run: RunId)
    ensures Highest(Run(actions).rows, run) == |LogOf(Run(actions).rows, run)|
  {
    RunIsGapFree(actions);
    hide Run, Highest;
    GapFreeLog(Run(actions).rows, run);
    HighestIsLength(Run(actions).rows, run);
  }

  /** A first read of the highest sequence makes a writer try the one after the log as it then is. */
  lemma FirstRead(actions: seq<Action>, w: WriterId, run: RunId, event: string)
    requires (WriterOf(Run(actions), w).Idle? || WriterOf(Run(actions), w).Exhausted?) && event in RUN_EVENT_TYPES
    ensures var s, s' := Run(actions), Run(actions + [Begin(w, run, event)]);
            var next := |LogOf(s.rows, run)| + 1;
            WriterOf(s', w) == Holding(run, event, next - 1, [next]) && s'.rows == s.rows
  {
    OneMoreAction(actions, Begin(w, run, event));
    hide Run, LogOf, Highest, RUN_EVENT_TYPES;
    HighestNow(actions, run);
  }

  /** And so does a fresh one. */
  lemma FreshRead(actions: seq<Action>, w: WriterId)
    requires WriterOf(Run(actions), w).Collided?
    ensures var s, s' := Run(actions), Run(actions + [Reread(w)]);
            var p := WriterOf(s, w);
            var next := |LogOf(s.rows, p.run)| + 1;
            WriterOf(s', w) == Holding(p.run, p.event, p.start, p.tried + [next]) && s'.rows == s.rows
  {
    OneMoreAction(actions, Reread(w));
    hide Run, LogOf, Highest;
    HighestNow(actions, WriterOf(Run(actions), w).run);
  }

  /** What a step leaves as it was: the rows unless it is a commit, every other writer and every other subscriber; and
      everything, where the call is not at that point, a type is unknown, or there is no such subscriber. */
  lemma StepTouches(s: System, a: Action, w: WriterId, r: ReaderId)
    ensures var s' := After(s, a);
            && (!a.Commit? ==> s'.rows == s.rows)
            && (!((a.Begin? || a.Commit? || a.Reread?) && a.writer == w) ==> WriterOf(s', w) == WriterOf(s, w))
            && (a.Begin? || a.Commit? || a.Reread? || a.reader != r ==>
                  (r in s'.readers <==> r in s.readers) && (r in s.readers ==> s'.readers[r] == s.readers[r]))
    ensures a.Begin? && (WriterOf(s, a.writer).Holding? || WriterOf(s, a.writer).Collided?) ==> After(s, a) == s
    ensures a.Begin? && a.event !in RUN_EVENT_TYPES ==> After(s, a) == s
    ensures a.Commit? && !WriterOf(s, a.writer).Holding? ==> After(s, a) == s
    ensures a.Reread? && !WriterOf(s, a.writer).Collided? ==> After(s, a) == s
    ensures (a.Poll? || a.Deliver? || a.Reconnect?) && a.reader !in s.readers ==> After(s, a) == s
    ensures a.Poll? && a.reader in s.readers && s.readers[a.reader].pending != [] ==> After(s, a) == s
  {
    hide RUN_EVENT_TYPES, ListSince, Highest, Taken;
  }

  /** A commit at a sequence that is taken stores nothing: the call reads again, until it has tried eight. */
  lemma LostCommit(actions: seq<Action>, w: WriterId)
    requires var s := Run(actions);
             var p := WriterOf(s, w);
             p.Holding? && p.tried != [] && p.tried[|p.tried| - 1] <= |LogOf(s.rows, p.run)|
    ensures var s, s' := Run(actions), Run(actions + [Commit(w)]);
            var p := WriterOf(s, w);
            && s'.rows == s.rows
            && WriterOf(s', w) == if |p.tried| < 8 then Collided(p.run, p.event, p.start,
              p.tried) else Exhausted(p.run, p.start, p.tried)
  {
    OneMoreAction(actions, Commit(w));
    RunKeeps(actions);
    hide Run, LogOf, GapFree, Taken;
    var s := Run(actions);
    var p := WriterOf(s, w);
    assert WriterInv(s.rows, w, p);
    TakenExactly(s.rows, p.run, p.tried[|p.tried| - 1]);
  }

  function Deliveries(r: ReaderId, n: nat): (steps: seq<Action>)
    ensures |steps| == n && forall i :: 0 <= i < n ==> steps[i] == Deliver(r)
  {
    seq(n, _ => Deliver(r))
  }

  /** Delivering moves a subscriber along the batch it polled. */
  lemma {:induction false} DeliveredMany(actions: seq<Action>, r: ReaderId, n: nat)
    requires r in Run(actions).readers && n <= |Run(actions).readers[r].pending|
    ensures var s, s' := Run(actions), Run(actions + Deliveries(r, n));
            var c := s.readers[r];
            && s'.rows == s.rows && r in s'.readers
            && s'.readers[r] == Reader(c.run, if n == 0 then c.lastSeen else c.pending[n - 1].sequence, c.pending[n..],
                                       c.received + c.pending[..n])
  {
    hide Run;
    var c := Run(actions).readers[r];
    if n == 0 {
      assert actions + Deliveries(r, 0) == actions;
      assert c.received + c.pending[..0] == c.received;
    } else {
      DeliveredMany(actions, r, n - 1);
      DeliveredOne(actions + Deliveries(r, n - 1), r);
      assert actions + Deliveries(r, n) == actions + Deliveries(r, n - 1) + [Deliver(r)];
      assert c.pending[n - 1..][1..] == c.pending[n..];
      assert c.pending[..n] == c.pending[..n - 1] + [c.pending[n - 1]];
    }
  }

  lemma Polled(actions: seq<Action>, r: ReaderId, limit: nat)
    requires r in Run(actions).readers && Run(actions).readers[r].pending == []
    ensures var s, s' := Run(actions), Run(actions + [Poll(r, limit)]);
            var c := s.readers[r];
            s'.rows == s.rows && r in s'.readers && s'.readers[r] == c.(pending := ListSince(s.rows, c.run, c.lastSeen, limit))
  {
    hide ListSince;
    assert (actions + [Poll(r, limit)])[..|actions|] == actions;
  }

  /** A subscriber that polls and is delivered its batch has received so much more of its run's log: as much as the limit
      admits or as there is. */
  lemma PolledIsReceived(actions: seq<Action>, r: ReaderId, limit: nat)
    requires r in Run(actions).readers && Run(actions).readers[r].pending == []
    ensures var s := Run(actions);
            var c := s.readers[r];
            var log := LogOf(s.rows, c.run);
            && c.lastSeen <= |log|
            && var n := Lesser(limit, |log| - c.lastSeen);
               var s' := Run(actions + [Poll(r, limit)] + Deliveries(r, n));
               && s'.rows == s.rows && r in s'.readers
               && s'.readers[r] == Reader(c.run, c.lastSeen + n, [], log[..c.lastSeen + n])
  {
    hide *;
    var s := Run(actions);
    var c := s.readers[r];
    SubscribersSeeAPrefix(actions, r);
    RunIsGapFree(actions);
    Polled(actions, r, limit);
    BatchIsStretch(s.rows, c.run, c.lastSeen, limit);
    var log, batch := LogOf(s.rows, c.run), ListSince(s.rows, c.run, c.lastSeen, limit);
    DeliveredMany(actions + [Poll(r, limit)], r, |batch|);
    GapFreeLog(s.rows, c.run);
    CaughtUp(c.(pending := batch), log);
  }

  lemma RunIsGapFree(actions: seq<Action>)
    ensures GapFree(Run(actions).rows)
  {
    RunKeeps(actions);
    hide Run, GapFree, WriterInv, ReaderInv;
  }

  lemma CaughtUp(c: Reader, log: seq<Row>)
    requires c.lastSeen + |c.pending| <= |log| && c.received == log[..c.lastSeen]
    requires c.pending == log[c.lastSeen..c.lastSeen + |c.pending|]
    requires forall i :: 0 <= i < |log| ==> log[i].sequence == i + 1
    ensures var n := |c.pending|;
            Reader(c.run, if n == 0 then c.lastSeen else c.pending[n - 1].sequence, c.pending[n..], c.received + c.pending[..n])
            == Reader(c.run, c.lastSeen + n, [], log[..c.lastSeen + n])
  {
    var n := |c.pending|;
    assert c.pending[..n] == c.pending;
    assert log[..c.lastSeen] + log[c.lastSeen..c.lastSeen + n] == log[..c.lastSeen + n];
  }

  lemma DeliveredOne(actions: seq<Action>, r: ReaderId)
    requires r in Run(actions).readers && Run(actions).readers[r].pending != []
    ensures var s, s' := Run(actions), Run(actions + [Deliver(r)]);
            var c := s.readers[r];
            s'.rows == s.rows && r in s'.readers
            && s'.readers[r] == Reader(c.run, c.pending[0].sequence, c.pending[1..], c.received + [c.pending[0]])
  {
    assert (actions + [Deliver(r)])[..|actions|] == actions;
  }

  // ---------------------------------------------------------------------------------------
  // One call of publish
  // ---------------------------------------------------------------------------------------

  /** An event another writer commits, at whatever sequence is then next. */
  datatype Foreign = Foreign(run: RunId, writer: WriterId, event: string)

  datatype Published = Stored(row: Row) | UnknownType | Contended

  function CommitAll(rows: seq<Row>, events: seq<Foreign>): seq<Row> {
    if events == [] then rows
    else
      var before, last := CommitAll(rows, events[..|events| - 1]), events[|events| - 1];
      before + [Row(last.run, |LogOf(before, last.run)| + 1, last.writer, last.event)]
  }

  predicate Touches(events: seq<Foreign>, run: RunId) {
    exists i :: 0 <= i < |events| && events[i].run == run
  }

  /** The table after the first n windows. */
  function AfterWindows(rows: seq<Row>, windows: seq<seq<Foreign>>, n: nat): seq<Row>
    requires n <= |windows|
  {
    if n == 0 then rows else CommitAll(AfterWindows(rows, windows, n - 1), windows[n - 1])
  }

  lemma {:induction false} CommitAllKeeps(rows: seq<Row>, events: seq<Foreign>, run: RunId)
    requires GapFree(rows)
    ensures GapFree(CommitAll(rows, events))
    ensures |LogOf(CommitAll(rows, events), run)| >= |LogOf(rows, run)|
    ensures |LogOf(CommitAll(rows, events), run)| == |LogOf(rows, run)| <==> !Touches(events, run)
  {
    hide GapFree, LogOf;
    if events != [] {
      var front, last := events[..|events| - 1], events[|events| - 1];
      CommitAllKeeps(rows, front, run);
      var before := CommitAll(rows, front);
      CommitKeeps(before, Row(last.run, |LogOf(before, last.run)| + 1, last.writer, last.event));
      assert Touches(events, run) <==> Touches(front, run) || last.run == run by {
        if Touches(front, run) {
          var i :| 0 <= i < |front| && front[i].run == run;
          assert events[i].run == run;
        }
        if Touches(events, run) && last.run != run {
          var i :| 0 <= i < |events| && events[i].run == run;
          assert front[i].run == run;
        }
      }
    }
  }

  class EventStore {
    var rows: seq<Row>

    constructor ()
      ensures rows == []
    {
      rows := [];
    }

    /** The other writers' turn. */
    method Others(events: seq<Foreign>)
      modifies this
      ensures rows == CommitAll(old(rows), events)
    {
      var i := 0;
      while i < |events|
        invariant 0 <= i <= |events|
        invariant rows == CommitAll(old(rows), events[..i])
      {
        assert events[..i + 1][..i] == events[..i];
        rows := rows + [Row(events[i].run, |LogOf(rows, events[i].run)| + 1, events[i].writer, events[i].event)];
        i := i + 1;
      }
      assert events[..|events|] == events;
    }

    /** windows[k] is what other writers commit between this call's k-th read and its k-th insert. The
        event is stored in the first window no other writer entered that run, at the sequence then
        next; with none among the eight, nothing of this call is stored. */
    method Publish(w: WriterId, run: RunId, event: string, windows: seq<seq<Foreign>>) returns (result: Published)
      requires GapFree(rows) && |windows| == MAX_SEQUENCE_RETRIES
      modifies this
      ensures GapFree(rows)
      ensures result.UnknownType? <==> event !in RUN_EVENT_TYPES
      ensures result.UnknownType? ==> rows == old(rows)
      ensures event in RUN_EVENT_TYPES ==>
        (result.Contended? <==> forall k :: 0 <= k < MAX_SEQUENCE_RETRIES ==> Touches(windows[k], run))
      ensures result.Contended? ==> rows == AfterWindows(old(rows), windows, MAX_SEQUENCE_RETRIES)
      ensures result.Stored? ==>
        exists k :: 0 <= k < MAX_SEQUENCE_RETRIES && StoredIn(old(rows), w, run, event, windows, k, rows, result.row)
    {
      hide GapFree, LogOf, Highest, AfterWindows, CommitAll, Taken, Touches, RUN_EVENT_TYPES;
      if event !in RUN_EVENT_TYPES {
        return UnknownType;
      }
      NoWindows(rows, windows);
      var attempt := 0;
      while attempt < MAX_SEQUENCE_RETRIES
        invariant 0 <= attempt <= MAX_SEQUENCE_RETRIES
        invariant GapFree(rows) && rows == AfterWindows(old(rows), windows, attempt)
        invariant forall k :: 0 <= k < attempt ==> Touches(windows[k], run)
      {
        GapFreeLog(rows, run);
        HighestIsLength(rows, run);
        var sequence := Highest(rows, run) + 1;
        CommitAllKeeps(rows, windows[attempt], run);
        OneMoreWindow(old(rows), windows, attempt);
        Others(windows[attempt]);
        TakenExactly(rows, run, sequence);
        if !Taken(rows, run, sequence) {
          var row := Row(run, sequence, w, event);
          CommitKeeps(rows, row);
          rows := rows + [row];
          assert StoredIn(old(rows), w, run, event, windows, attempt, rows, row);
          return Stored(row);
        }
        attempt := attempt + 1;
      }
      result := Contended;
    }
  }

  lemma NoWindows(rows: seq<Row>, windows: seq<seq<Foreign>>)
    ensures AfterWindows(rows, windows, 0) == rows
  {
  }

  lemma OneMoreWindow(rows: seq<Row>, windows: seq<seq<Foreign>>, n: nat)
    requires n < |windows|
    ensures AfterWindows(rows, windows, n + 1) == CommitAll(AfterWindows(rows, windows, n), windows[n])
  {
  }

  /** The call stored its event in window k: the first that left the run alone. */
  ghost predicate StoredIn(before: seq<Row>, w: WriterId, run: RunId, event: string, windows: seq<seq<Foreign>>,
                           k: nat, after: seq<Row>, row: Row)
    requires k < |windows|
  {
    && (forall j :: 0 <= j < k ==> Touches(windows[j], run))
    && !Touches(windows[k], run)
    && row == Row(run, |LogOf(AfterWindows(before, windows, k + 1), run)| + 1, w, event)
    && after == AfterWindows(before, windows, k + 1) + [row]
  }
}
