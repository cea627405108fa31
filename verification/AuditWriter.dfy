/** The batching audit writer: enqueuers, flushers, the lock of the queue and the lock that lets one
    batch be written at a time. */
module AuditWriter {

  import opened Wrappers

  const FlushAt: nat := 200

  /** The rows the database accepts. A row it rejects fails alone and takes down a batch it is in. */
  function Accepted<Row>(rejects: Row -> bool, rows: seq<Row>): seq<Row> {
    if rows == [] then []
    else Accepted(rejects, rows[..|rows| - 1]) + if rejects(rows[|rows| - 1]) then [] else [rows[|rows| - 1]]
  }

  lemma {:induction false} AcceptedAppend<Row>(rejects: Row -> bool, a: seq<Row>, b: seq<Row>)
    ensures Accepted(rejects, a + b) == Accepted(rejects, a) + Accepted(rejects, b)
    decreases |b|
  {
    if b == [] {
      assert a + b == a;
    } else {
      var ab := a + b;
      assert ab[..|ab| - 1] == a + b[..|b| - 1];
      AcceptedAppend(rejects, a, b[..|b| - 1]);
    }
  }

  lemma {:induction false} AllAccepted<Row>(rejects: Row -> bool, rows: seq<Row>)
    requires forall i :: 0 <= i < |rows| ==> !rejects(rows[i])
    ensures Accepted(rejects, rows) == rows
    decreases |rows|
  {
    if rows != [] {
      AllAccepted(rejects, rows[..|rows| - 1]);
    }
  }

  predicate AnyRejected<Row>(rejects: Row -> bool, rows: seq<Row>) {
    exists i :: 0 <= i < |rows| && rejects(rows[i])
  }

  // ----- the transition system -----

  /** What the holder of the write lock is at: it has not taken the queue yet, or it has rows of the
      current part to write one by one and further rows to write in parts. */
  datatype Progress<Row> = Locked | Writing(singly: seq<Row>, rest: seq<Row>)

  /** A call of flush: how many rows had been enqueued when it was made, and where it is. */
  datatype Call = Waiting(before: nat) | Holding(before: nat) | Returned(before: nat)

  /** `history` records what was ever enqueued and `settled` what was written or rejected, in order. */
  datatype State<Row> = State(
    history: seq<Row>,
    settled: seq<Row>,
    queue: seq<Row>,
    table: seq<Row>,
    writer: Option<(nat, Progress<Row>)>,
    calls: map<nat, Call>)

  datatype Step<Row> =
    | Enqueue(row: Row)
    | BeginFlush(id: nat)
    | Lock(id: nat)
    | Take
    | InsertPart(ok: bool)
    | InsertRow
    | Return

  function Start<Row>(): State<Row> { State([], [], [], [], None, map[]) }

  function Part<Row>(rest: seq<Row>): seq<Row> {
    if |rest| <= FlushAt then rest else rest[..FlushAt]
  }

  predicate Enabled<Row>(s: State<Row>, step: Step<Row>) {
    match step
    case Enqueue(_) => true
    case BeginFlush(id) => id !in s.calls
    case Lock(id) => s.writer.None? && id in s.calls && s.calls[id].Waiting?
    case Take => s.writer.Some? && s.writer.value.1.Locked?
    case InsertPart(_) => s.writer.Some? && s.writer.value.1.Writing? && s.writer.value.1.singly == [] && s.writer.value.1.rest != []
    case InsertRow => s.writer.Some? && s.writer.value.1.Writing? && s.writer.value.1.singly != []
    case Return => s.writer.Some? && s.writer.value.1 == Writing([], []) && s.writer.value.0 in s.calls
  }

  function Next<Row>(rejects: Row -> bool, s: State<Row>, step: Step<Row>): State<Row>
    requires Enabled(s, step)
  {
    match step
    case Enqueue(row) => s.(history := s.history + [row], queue := s.queue + [row])
    case BeginFlush(id) => s.(calls := s.calls[id := Waiting(|s.history|)])
    case Lock(id) => s.(writer := Some((id, Locked)), calls := s.calls[id := Holding(s.calls[id].before)])
    case Take => s.(writer := Some((s.writer.value.0, Writing([], s.queue))), queue := [])
    case InsertPart(ok) =>
      var (id, p) := s.writer.value;
      var part := Part(p.rest);
      // One statement, one transaction: all of the part or none of it.
      if ok && !AnyRejected(rejects, part) then s.(settled := s.settled + part, table := s.table + part, writer := Some((id, Writing([], p.rest[|part|..]))))
      else s.(writer := Some((id, Writing(part, p.rest[|part|..]))))
    case InsertRow =>
      var (id, p) := s.writer.value;
      s.(settled := s.settled + [p.singly[0]],
         table := if rejects(p.singly[0]) then s.table else s.table + [p.singly[0]],
         writer := Some((id, Writing(p.singly[1..], p.rest))))
    case Return =>
      var id := s.writer.value.0;
      s.(writer := None, calls := s.calls[id := Returned(s.calls[id].before)])
  }

  ghost predicate Runs<Row>(rejects: Row -> bool, s: State<Row>, steps: seq<Step<Row>>, t: State<Row>)
    decreases |steps|
  {
    if steps == [] then s == t else Enabled(s, steps[0]) && Runs(rejects, Next(rejects, s, steps[0]), steps[1..], t)
  }

  // ----- what every step keeps -----

  /** The batch in flight: taken and not written yet. */
  function InFlight<Row>(s: State<Row>): seq<Row> {
    if s.writer.None? || s.writer.value.1.Locked? then [] else s.writer.value.1.singly + s.writer.value.1.rest
  }

  /** The history is what is settled, the batch in flight and the queue; the table holds what was
      accepted of the first. */
  ghost predicate InOrder<Row>(rejects: Row -> bool, s: State<Row>) {
    s.history == s.settled + (InFlight(s) + s.queue) && s.table == Accepted(rejects, s.settled)
  }

  ghost predicate Covered<Row>(s: State<Row>) {
    && (forall id :: id in s.calls ==> s.calls[id].before <= |s.history|)
    && (forall id :: id in s.calls && s.calls[id].Returned? ==> s.calls[id].before <= |s.settled|)
    && (forall id :: id in s.calls ==> (s.calls[id].Holding? <==> s.writer.Some? && s.writer.value.0 == id))
    && (s.writer.Some? ==> s.writer.value.0 in s.calls)
    && (s.writer.Some? && s.writer.value.1.Writing? ==> s.calls[s.writer.value.0].before <= |s.history| - |s.queue|)
  }

  lemma WriteKeepsOrder<Row>(rejects: Row -> bool, s: State<Row>, t: State<Row>, done: seq<Row>)
    requires InOrder(rejects, s) && t.history == s.history && t.queue == s.queue && t.settled == s.settled + done
    requires InFlight(s) == done + InFlight(t) && t.table == s.table + Accepted(rejects, done)
    ensures InOrder(rejects, t)
  {
    hide Accepted, InFlight;
    AcceptedAppend(rejects, s.settled, done);
    Regroup(s.settled, done, InFlight(t), t.queue);
  }

  lemma Regroup<Row>(a: seq<Row>, b: seq<Row>, c: seq<Row>, d: seq<Row>)
    ensures a + ((b + c) + d) == (a + b) + (c + d)
  {
  }

  lemma EnqueueKeepsOrder<Row>(rejects: Row -> bool, s: State<Row>, row: Row)
    requires InOrder(rejects, s)
    ensures var t := Next(rejects, s, Enqueue(row)); InOrder(rejects, t)
  {
  }

  lemma PartKeepsOrder<Row>(rejects: Row -> bool, s: State<Row>, ok: bool)
    requires Enabled(s, InsertPart(ok)) && InOrder(rejects, s)
    ensures var t := Next(rejects, s, InsertPart(ok)); InOrder(rejects, t)
  {
    var t := Next(rejects, s, InsertPart(ok));
    var rest := s.writer.value.1.rest;
    var part := Part(rest);
    assert rest == part + rest[|part|..];
    if ok && !AnyRejected(rejects, part) {
      AllAccepted(rejects, part);
      assert InFlight(s) == part + InFlight(t);
      WriteKeepsOrder(rejects, s, t, part);
    } else {
      assert InFlight(s) == [] + InFlight(t);
      WriteKeepsOrder(rejects, s, t, []);
    }
  }

  lemma RowKeepsOrder<Row>(rejects: Row -> bool, s: State<Row>)
    requires Enabled(s, InsertRow) && InOrder(rejects, s)
    ensures var t := Next(rejects, s, InsertRow); InOrder(rejects, t)
  {
    var t := Next(rejects, s, InsertRow);
    var row := s.writer.value.1.singly[0];
    assert InFlight(s) == [row] + InFlight(t);
    assert [row][..0] == [];
    assert Accepted(rejects, [row]) == if rejects(row) then [] else [row];
    WriteKeepsOrder(rejects, s, t, [row]);
  }

  lemma StepKeepsOrder<Row>(rejects: Row -> bool, s: State<Row>, step: Step<Row>)
    requires Enabled(s, step) && InOrder(rejects, s)
    ensures InOrder(rejects, Next(rejects, s, step)) && |Next(rejects, s, step).settled| >= |s.settled|
  {
    match step
    case Enqueue(row) => EnqueueKeepsOrder(rejects, s, row);
    case InsertPart(ok) => PartKeepsOrder(rejects, s, ok);
    case InsertRow => RowKeepsOrder(rejects, s);
    case BeginFlush(_) =>
    case Lock(_) =>
    case Take => assert InFlight(s) == [] && InFlight(Next(rejects, s, step)) == s.queue;
    case Return =>
  }

  lemma StepKeepsCover<Row>(rejects: Row -> bool, s: State<Row>, step: Step<Row>)
    requires Enabled(s, step) && InOrder(rejects, s) && Covered(s)
    ensures Covered(Next(rejects, s, step))
  {
    StepKeepsOrder(rejects, s, step);
  }

  lemma {:induction false} RunKeeps<Row>(rejects: Row -> bool, s: State<Row>, steps: seq<Step<Row>>, t: State<Row>)
    requires InOrder(rejects, s) && Covered(s) && Runs(rejects, s, steps, t)
    ensures InOrder(rejects, t) && Covered(t)
    decreases |steps|
  {
    if steps != [] {
      StepKeepsOrder(rejects, s, steps[0]);
      StepKeepsCover(rejects, s, steps[0]);
      RunKeeps(rejects, Next(rejects, s, steps[0]), steps[1..], t);
    }
  }

  // ----- the results -----

  /** In every interleaving the enqueue history is what is settled, then the batch in flight, then the
      queue, and the table holds exactly the accepted rows of the first, in order: nothing is lost,
      written twice or out of order. */
  lemma NothingLostOrDoubled<Row>(rejects: Row -> bool, steps: seq<Step<Row>>, t: State<Row>)
    requires Runs(rejects, Start(), steps, t)
    ensures t.history == t.settled + (InFlight(t) + t.queue) && t.table == Accepted(rejects, t.settled)
  {
    RunKeeps(rejects, Start(), steps, t);
  }

  /** When a flush has returned, all rows enqueued before the call have been written or rejected: the
      table starts with exactly their accepted ones. */
  lemma ReadYourWrites<Row>(rejects: Row -> bool, steps: seq<Step<Row>>, t: State<Row>, id: nat)
    requires Runs(rejects, Start(), steps, t) && id in t.calls && t.calls[id].Returned?
    ensures var before := t.calls[id].before;
            before <= |t.history| && Accepted(rejects, t.history[..before]) <= t.table
  {
    RunKeeps(rejects, Start(), steps, t);
    var before := t.calls[id].before;
    assert t.history[..before] == t.settled[..before];
    assert t.settled == t.settled[..before] + t.settled[before..];
    AcceptedAppend(rejects, t.settled[..before], t.settled[before..]);
  }

  /** A flusher alone: from taking the lock it always reaches its return. */
  lemma {:induction false} WriterFinishes<Row>(rejects: Row -> bool, s: State<Row>) returns (steps: seq<Step<Row>>, t: State<Row>)
    requires s.writer.Some? && s.writer.value.1.Writing? && s.writer.value.0 in s.calls
    ensures Runs(rejects, s, steps, t) && t.writer.None? && s.writer.value.0 in t.calls && t.calls[s.writer.value.0].Returned? && t.queue == s.queue
    decreases |s.writer.value.1.rest|, |s.writer.value.1.singly|
  {
    var p := s.writer.value.1;
    var step := if p.singly != [] then InsertRow else if p.rest != [] then InsertPart(true) else Return;
    var next := Next(rejects, s, step);
    if step.Return? {
      steps, t := [step], next;
      assert steps[1..] == [];
    } else {
      steps, t := WriterFinishes(rejects, next);
      steps := [step] + steps;
    }
  }

  // ----- the object -----

  function UpTo<Row>(rows: seq<Row>, n: nat): seq<Row> {
    if n < |rows| then rows[..n] else rows
  }

  /** The writer with its two lists, for one goroutine at a time. */
  class Writer<Row> {
    var queue: seq<Row>
    var table: seq<Row>
    /** The channel of capacity one that wakes the background writer. */
    var full: bool

    constructor ()
      ensures queue == [] && table == [] && !full
    {
      queue, table, full := [], [], false;
    }

    method Enqueue(row: Row)
      modifies this
      ensures queue == old(queue) + [row] && table == old(table)
      ensures full == (old(full) || |queue| >= FlushAt)
    {
      queue := queue + [row];
      if |queue| >= FlushAt {
        full := true;
      }
    }

    /** Writes the queue in parts; a part that fails, whether for a row in it or for no reason of its
        own (`works`), is written row by row. */
    method Flush(rejects: Row -> bool, works: seq<bool>)
      modifies this
      ensures queue == [] && table == old(table) + Accepted(rejects, old(queue)) && full == old(full)
    {
      var batch := queue;
      queue := [];
      var start := 0;
      while start < |batch|
        invariant 0 <= start && queue == [] && full == old(full)
        invariant table == old(table) + Accepted(rejects, UpTo(batch, start))
      {
        var end := if start + FlushAt < |batch| then start + FlushAt else |batch|;
        assert UpTo(batch, start + FlushAt) == batch[..start] + batch[start..end];
        AcceptedAppend(rejects, batch[..start], batch[start..end]);
        InsertPart(rejects, batch[start..end], start / FlushAt >= |works| || works[start / FlushAt]);
        start := start + FlushAt;
      }
    }

    method InsertPart(rejects: Row -> bool, part: seq<Row>, works: bool)
      modifies this`table
      ensures table == old(table) + Accepted(rejects, part)
    {
      if works && !AnyRejected(rejects, part) {
        AllAccepted(rejects, part);
        table := table + part;
      } else {
        InsertSingly(rejects, part);
      }
    }

    method InsertSingly(rejects: Row -> bool, part: seq<Row>)
      modifies this`table
      ensures table == old(table) + Accepted(rejects, part)
    {
      for i := 0 to |part|
        invariant table == old(table) + Accepted(rejects, part[..i])
      {
        assert part[..i + 1][..i] == part[..i];
        if !rejects(part[i]) {
          table := table + [part[i]];
        }
      }
      assert part[..|part|] == part;
    }
  }
}
