/** One Kafka partition of the command topic, as a transition system: producers append, one
    replica at a time owns the partition and runs its commands, and any replica can lose the
    partition or die at any point. */
module PartitionMachine {

  import opened Wrappers

  /** A record of the command topic: a command, or bytes that do not decode to one. */
  datatype Entry<+C> = Malformed | Decoded(cmd: C)

  /** Where the owning replica is in its loop. `Fetching` is the top of the loop with its local
      `first`; `Executing` is the top of the retry loop with its local `redelivered`. */
  datatype Owner =
    | Nobody
    | Fetching(pos: nat, first: bool)
    | Executing(pos: nat, redelivered: bool)
    | BackingOff(pos: nat)
    | Replying(pos: nat)
    | Acknowledging(pos: nat)

  /** What happened so far. `Ran` is one call of the handler: `applied` tells whether its effect
      reached the database and `final` whether its outcome was an answer, not a transient error. */
  datatype Event =
    | Ran(offset: nat, redelivered: bool, applied: bool, final: bool)
    | Skipped(offset: nat)
    | Replied(offset: nat)
    | Acked(offset: nat)

  /** `committed` is the group's acknowledged position. */
  datatype State<C, Db> = State(
    log: seq<Entry<C>>,
    committed: nat,
    owner: Owner,
    db: Db,
    history: seq<Event>)

  datatype Step<C> =
    | Append(entry: Entry<C>)
    | Assign
    | Fetch
    | RunToAnswer
    | RunTransient(applied: bool)
    | Retry
    | Reply(sent: bool)
    | Commit(acked: bool)
    | Revoke
    | Crash
    | CrashWhileRunning(applied: bool)

  /** A handler: the command, the redelivered flag and the database before, giving the one after. */
  type Handler<!C, !Db> = (C, bool, Db) -> Db

  function Handle<C, Db>(h: Handler<C, Db>, cmd: C, redelivered: bool, db: Db): Db {
    h(cmd, redelivered, db)
  }

  function Initial<C, Db>(db: Db): (s: State<C, Db>) {
    State([], 0, Nobody, db, [])
  }

  /** One step, or None where it is not enabled. */
  function Next<C, Db>(h: Handler<C, Db>, s: State<C, Db>, step: Step<C>): Option<State<C, Db>> {
    match (step, s.owner)
    case (Append(entry), _) => Some(s.(log := s.log + [entry]))
    case (Assign, Nobody) => Some(s.(owner := Fetching(s.committed, true)))
    case (Fetch, Fetching(pos, first)) =>
      if pos >= |s.log| then None
      else if s.log[pos].Malformed? then
        Some(s.(owner := Acknowledging(pos), history := s.history + [Skipped(pos)]))
      else Some(s.(owner := Executing(pos, first)))
    case (RunToAnswer, Executing(pos, redelivered)) =>
      Attempted(h, s, pos, redelivered, true, true, Replying(pos))
    case (RunTransient(applied), Executing(pos, redelivered)) =>
      Attempted(h, s, pos, redelivered, applied, false, BackingOff(pos))
    case (CrashWhileRunning(applied), Executing(pos, redelivered)) =>
      Attempted(h, s, pos, redelivered, applied, false, Nobody)
    case (Retry, BackingOff(pos)) => Some(s.(owner := Executing(pos, true)))
    case (Reply(sent), Replying(pos)) =>
      Some(s.(owner := Acknowledging(pos), history := if sent then s.history + [Replied(pos)] else s.history))
    case (Commit(acked), Acknowledging(pos)) =>
      if acked then Some(s.(owner := Fetching(pos + 1, false), committed := pos + 1, history := s.history + [Acked(pos)]))
      else Some(s.(owner := Fetching(pos + 1, false)))
    case (Revoke, Fetching(_, _)) => Some(s.(owner := Nobody))
    case (Revoke, BackingOff(_)) => Some(s.(owner := Nobody))
    case (Crash, Nobody) => None
    case (Crash, _) => Some(s.(owner := Nobody))
    case _ => None
  }

  /** The handler called once on the command at `pos`. */
  function Attempted<C, Db>(h: Handler<C, Db>, s: State<C, Db>, pos: nat, redelivered: bool,
                            applied: bool, final: bool, owner: Owner): Option<State<C, Db>>
  {
    if pos >= |s.log| || s.log[pos].Malformed? then None
    else Some(s.(owner := owner,
                 db := if applied then Handle(h, s.log[pos].cmd, redelivered, s.db) else s.db,
                 history := s.history + [Ran(pos, redelivered, applied, final)]))
  }

  /** No command was attempted beyond the first that is not acknowledged. */
  predicate Covered<C, Db>(s: State<C, Db>) {
    forall i :: 0 <= i < |s.history| && s.history[i].Ran? ==> s.history[i].offset <= s.committed
  }

  /** The environment's promise: no owner is lost after it attempted a command beyond the first it did
      not acknowledge. The loop goes on after a failed acknowledgement, so this is up to Kafka. */
  predicate Promised<C, Db>(s: State<C, Db>) {
    s.owner.Nobody? ==> Covered(s)
  }

  /** The state after a whole run, or None if some step was not enabled or, when `promise` is set,
      broke the environment's promise. */
  function Exec<C, Db>(h: Handler<C, Db>, promise: bool, s: State<C, Db>, steps: seq<Step<C>>): Option<State<C, Db>>
    decreases |steps|
  {
    if steps == [] then Some(s)
    else
      var mid := Exec(h, promise, s, steps[..|steps| - 1]);
      if mid.None? then None
      else
        var t := Next(h, mid.value, steps[|steps| - 1]);
        if t.Some? && promise && !Promised(t.value) then None else t
  }

  /** A state some run from the initial one reaches, under that promise. */
  ghost predicate Reachable<C(!new), Db>(h: Handler<C, Db>, db0: Db, s: State<C, Db>) {
    exists steps: seq<Step<C>> :: Exec(h, true, Initial(db0), steps) == Some(s)
  }

  // ----- what the history says -----

  /** Offsets run to an answer, or found malformed. */
  function Done(history: seq<Event>): set<nat> {
    set e | e in history && ((e.Ran? && e.final) || e.Skipped?) :: e.offset
  }

  ghost predicate AttemptedBefore(history: seq<Event>, offset: nat) {
    exists i :: 0 <= i < |history| && history[i].Ran? && history[i].offset == offset
  }

  /** Every attempt but the first ever at its offset carries the redelivered flag. */
  ghost predicate RedeliveriesFlagged(history: seq<Event>) {
    forall i, j | 0 <= i < j < |history| && history[i].Ran? && history[j].Ran? && history[i].offset == history[j].offset ::
      history[j].redelivered
  }

  /** An offset is acknowledged only after its command was answered or skipped. */
  ghost predicate AcksAfterDone(history: seq<Event>) {
    forall j :: 0 <= j < |history| && history[j].Acked? ==> history[j].offset in Done(history[..j])
  }

  /** A reply is sent only for a command run to an answer. */
  ghost predicate RepliesAfterAnswer(history: seq<Event>) {
    forall j :: 0 <= j < |history| && history[j].Replied? ==>
      exists i :: 0 <= i < j && history[i].Ran? && history[i].final && history[i].offset == history[j].offset
  }

  // ----- the sequential reference -----

  /** The log's commands applied once each, in order, the one at offset k with flag `flags[k]`. */
  function Sequential<C, Db>(h: Handler<C, Db>, log: seq<Entry<C>>, flags: seq<bool>, db: Db): Db
    requires |flags| <= |log|
    decreases |flags|
  {
    if flags == [] then db
    else
      var k := |flags| - 1;
      var before := Sequential(h, log, flags[..k], db);
      if log[k].Malformed? then before else Handle(h, log[k].cmd, flags[k], before)
  }

  /** The flags the database's commands were first applied with, read off the history. */
  function Flags(history: seq<Event>): seq<bool>
    decreases |history|
  {
    if history == [] then [] else WithFlag(Flags(history[..|history| - 1]), history[|history| - 1])
  }

  function WithFlag(flags: seq<bool>, e: Event): seq<bool> {
    if e.Ran? && e.applied && e.offset == |flags| then flags + [e.redelivered]
    else if e.Skipped? && e.offset == |flags| then flags + [false]
    else flags
  }

  /** A command run again, flagged, right after it was applied changes nothing. */
  ghost predicate RedeliveryChangesNothing<C(!new), Db(!new)>(h: Handler<C, Db>) {
    forall c, flag, db :: Handle(h, c, true, Handle(h, c, flag, db)) == Handle(h, c, flag, db)
  }

  // ----- the invariant -----

  /** Every offset below this one is done. */
  function Floor<C, Db>(s: State<C, Db>): nat {
    match s.owner
    case Nobody => s.committed
    case Fetching(pos, _) => pos
    case Executing(pos, _) => pos
    case BackingOff(pos) => pos
    case Replying(pos) => pos + 1
    case Acknowledging(pos) => pos + 1
  }

  /** No offset from this one on was ever attempted. */
  function Limit<C, Db>(s: State<C, Db>): nat {
    match s.owner
    case Nobody => s.committed + 1
    case Fetching(pos, first) => if first then pos + 1 else pos
    case Executing(pos, redelivered) => if redelivered then pos + 1 else pos
    case BackingOff(pos) => pos + 1
    case Replying(pos) => pos + 1
    case Acknowledging(pos) => pos + 1
  }

  /** The owner is at a command, not at the top of its loop or past the command. */
  predicate AtCommand(owner: Owner) {
    owner.Executing? || owner.BackingOff? || owner.Replying?
  }

  /** What is done has no gaps, reaches the owner's place, and its commands were attempted. */
  ghost predicate Positioned<C, Db>(s: State<C, Db>) {
    && s.committed <= Floor(s) <= |s.log|
    && (forall o: nat :: o < Floor(s) ==> o in Done(s.history))
    && (forall o: nat, q: nat :: q in Done(s.history) && o < q ==> o in Done(s.history))
    && (forall q :: q in Done(s.history) ==> q < |s.log| && (s.log[q].Decoded? ==> AttemptedBefore(s.history, q)))
    && (AtCommand(s.owner) ==> s.owner.pos < |s.log| && s.log[s.owner.pos].Decoded?)
    && (s.owner.Replying? ==> Answered(s.history, s.owner.pos))
  }

  ghost predicate Answered(history: seq<Event>, offset: nat) {
    exists i :: 0 <= i < |history| && history[i].Ran? && history[i].final && history[i].offset == offset
  }

  /** Attempts stay below the limit, so that one not flagged is the first at its offset. */
  ghost predicate Flagged<C, Db>(s: State<C, Db>) {
    && (forall i :: 0 <= i < |s.history| && s.history[i].Ran? ==>
          s.history[i].offset < Limit(s) && s.history[i].offset < |s.log| && s.log[s.history[i].offset].Decoded?)
    && RedeliveriesFlagged(s.history)
  }

  /** The database is the sequential application of a prefix that covers what is done and whose commands
      were all attempted. */
  ghost predicate Refines<C, Db>(h: Handler<C, Db>, db0: Db, s: State<C, Db>) {
    var n := |Flags(s.history)|;
    && Floor(s) <= n <= |s.log|
    && (forall o :: o in Done(s.history) ==> o < n)
    && (forall o :: 0 <= o < n && s.log[o].Decoded? ==> AttemptedBefore(s.history, o))
    && s.db == Sequential(h, s.log, Flags(s.history), db0)
  }

  /** What every step keeps, whatever the handler does. */
  ghost predicate Orderly<C, Db>(s: State<C, Db>) {
    Positioned(s) && Flagged(s) && AcksAfterDone(s.history) && RepliesAfterAnswer(s.history)
  }

  lemma DoneOfAppended(history: seq<Event>, e: Event)
    ensures Done(history + [e]) == Done(history) + (if (e.Ran? && e.final) || e.Skipped? then {e.offset} else {})
    ensures Flags(history + [e]) == WithFlag(Flags(history), e)
  {
    assert (history + [e])[..|history|] == history;
    var all := history + [e];
    assert forall x :: x in all <==> x in history || x == e;
  }

  lemma {:induction false} SequentialOfLongerLog<C, Db>(h: Handler<C, Db>, log: seq<Entry<C>>, e: Entry<C>, flags: seq<bool>, db: Db)
    requires |flags| <= |log|
    ensures Sequential(h, log + [e], flags, db) == Sequential(h, log, flags, db)
    decreases |flags|
  {
    if flags != [] {
      SequentialOfLongerLog(h, log, e, flags[..|flags| - 1], db);
    }
  }

  lemma HistoryOfAppended(history: seq<Event>, e: Event)
    requires AcksAfterDone(history) && RepliesAfterAnswer(history)
    requires e.Acked? ==> e.offset in Done(history)
    requires e.Replied? ==> Answered(history, e.offset)
    ensures AcksAfterDone(history + [e]) && RepliesAfterAnswer(history + [e])
  {
    var all := history + [e];
    forall j | 0 <= j < |all| && all[j].Acked? ensures all[j].offset in Done(all[..j]) {
      assert all[..j] == if j < |history| then history[..j] else history;
    }
    forall j | 0 <= j < |all| && all[j].Replied?
      ensures exists i :: 0 <= i < j && all[i].Ran? && all[i].final && all[i].offset == all[j].offset
    {
      if j < |history| {
        var i :| 0 <= i < j && history[i].Ran? && history[i].final && history[i].offset == history[j].offset;
        assert all[i] == history[i];
      } else {
        var i :| 0 <= i < |history| && history[i].Ran? && history[i].final && history[i].offset == e.offset;
        assert all[i] == history[i];
      }
    }
  }

  lemma AttemptedOfAppended(history: seq<Event>, e: Event)
    ensures forall o :: AttemptedBefore(history + [e], o) <==> AttemptedBefore(history, o) || (e.Ran? && e.offset == o)
  {
    var all := history + [e];
    forall o ensures AttemptedBefore(all, o) <==> AttemptedBefore(history, o) || (e.Ran? && e.offset == o) {
      if AttemptedBefore(history, o) {
        var i :| 0 <= i < |history| && history[i].Ran? && history[i].offset == o;
        assert all[i] == history[i];
      }
      assert all[|history|] == e;
    }
  }

  /** One attempt, whatever its outcome. */
  lemma AttemptKeepsOrder<C, Db>(h: Handler<C, Db>, s: State<C, Db>, applied: bool, final: bool, owner: Owner, t: State<C, Db>)
    requires Orderly(s) && s.owner.Executing?
    requires final ==> owner == Replying(s.owner.pos)
    requires !final ==> owner == Nobody || owner == BackingOff(s.owner.pos)
    requires Attempted(h, s, s.owner.pos, s.owner.redelivered, applied, final, owner) == Some(t) && Promised(t)
    ensures Orderly(t)
  {
    hide Done, Flags, AcksAfterDone, RepliesAfterAnswer, AttemptedBefore;
    var e := Ran(s.owner.pos, s.owner.redelivered, applied, final);
    DoneOfAppended(s.history, e);
    HistoryOfAppended(s.history, e);
    AttemptedOfAppended(s.history, e);
    assert t.history[|s.history|] == e;
    if final {
      assert Answered(t.history, s.owner.pos);
    }
  }

  lemma SkipKeepsOrder<C, Db>(s: State<C, Db>, t: State<C, Db>)
    requires Orderly(s) && s.owner.Fetching? && s.owner.pos < |s.log| && s.log[s.owner.pos].Malformed?
    requires t == s.(owner := Acknowledging(s.owner.pos), history := s.history + [Skipped(s.owner.pos)])
    ensures Orderly(t)
  {
    hide Done, Flags, AcksAfterDone, RepliesAfterAnswer, AttemptedBefore;
    DoneOfAppended(s.history, Skipped(s.owner.pos));
    HistoryOfAppended(s.history, Skipped(s.owner.pos));
    AttemptedOfAppended(s.history, Skipped(s.owner.pos));
  }

  lemma ReplyKeepsOrder<C, Db>(s: State<C, Db>, t: State<C, Db>)
    requires Orderly(s) && s.owner.Replying?
    requires t == s.(owner := Acknowledging(s.owner.pos), history := s.history + [Replied(s.owner.pos)])
    ensures Orderly(t)
  {
    hide Done, Flags, AcksAfterDone, RepliesAfterAnswer, AttemptedBefore;
    DoneOfAppended(s.history, Replied(s.owner.pos));
    HistoryOfAppended(s.history, Replied(s.owner.pos));
    AttemptedOfAppended(s.history, Replied(s.owner.pos));
  }

  lemma CommitKeepsOrder<C, Db>(h: Handler<C, Db>, s: State<C, Db>, t: State<C, Db>)
    requires Orderly(s) && Next(h, s, Commit(true)) == Some(t)
    ensures Orderly(t)
  {
    hide Done, Flags, AcksAfterDone, RepliesAfterAnswer, Attempted, AttemptedBefore;
    DoneOfAppended(s.history, Acked(s.owner.pos));
    HistoryOfAppended(s.history, Acked(s.owner.pos));
    AttemptedOfAppended(s.history, Acked(s.owner.pos));
  }

  lemma StepKeepsOrder<C, Db>(h: Handler<C, Db>, s: State<C, Db>, step: Step<C>, t: State<C, Db>)
    requires Orderly(s) && Next(h, s, step) == Some(t) && Promised(t)
    ensures Orderly(t)
  {
    hide Done, Flags, AcksAfterDone, RepliesAfterAnswer, AttemptedBefore;
    match step
    case Fetch => if s.log[s.owner.pos].Malformed? { SkipKeepsOrder(s, t); }
    case RunToAnswer => AttemptKeepsOrder(h, s, true, true, Replying(s.owner.pos), t);
    case RunTransient(applied) => AttemptKeepsOrder(h, s, applied, false, BackingOff(s.owner.pos), t);
    case CrashWhileRunning(applied) => AttemptKeepsOrder(h, s, applied, false, Nobody, t);
    case Reply(sent) => if sent { ReplyKeepsOrder(s, t); }
    case Commit(acked) => if acked { CommitKeepsOrder(h, s, t); }
    case _ =>
  }

  /** Malformed records at the end change nothing. */
  lemma {:induction false} SequentialOverMalformed<C, Db>(h: Handler<C, Db>, log: seq<Entry<C>>, flags: seq<bool>, k: nat, db: Db)
    requires k <= |flags| <= |log| && forall o :: k <= o < |flags| ==> log[o].Malformed?
    ensures Sequential(h, log, flags, db) == Sequential(h, log, flags[..k], db)
    decreases |flags|
  {
    if k < |flags| {
      var fewer := flags[..|flags| - 1];
      SequentialOverMalformed(h, log, fewer, k, db);
      assert fewer[..k] == flags[..k];
    } else {
      assert flags[..k] == flags;
    }
  }

  /** An applied command applied again, flagged: nothing but malformed records came after it. */
  lemma ReapplyChangesNothing<C(!new), Db(!new)>(h: Handler<C, Db>, log: seq<Entry<C>>, flags: seq<bool>, k: nat, db: Db)
    requires RedeliveryChangesNothing(h) && k < |flags| <= |log| && log[k].Decoded? && forall o :: k < o < |flags| ==> log[o].Malformed?
    ensures Handle(h, log[k].cmd, true, Sequential(h, log, flags, db)) == Sequential(h, log, flags, db)
  {
    SequentialOverMalformed(h, log, flags, k + 1, db);
    assert Sequential(h, log, flags, db) == Handle(h, log[k].cmd, flags[k], Sequential(h, log, flags[..k + 1][..k], db));
  }

  lemma AttemptRefines<C(!new), Db(!new)>(h: Handler<C, Db>, db0: Db, s: State<C, Db>, applied: bool, final: bool, owner: Owner, t: State<C, Db>)
    requires RedeliveryChangesNothing(h)
    requires Orderly(s) && Refines(h, db0, s) && s.owner.Executing? && (final ==> applied)
    requires Attempted(h, s, s.owner.pos, s.owner.redelivered, applied, final, owner) == Some(t)
    requires owner == (if final then Replying(s.owner.pos) else Nobody) || owner == (if final then Replying(s.owner.pos) else BackingOff(s.owner.pos))
    ensures Refines(h, db0, t)
  {
    hide Done, Flags, AcksAfterDone, RepliesAfterAnswer, AttemptedBefore, Sequential, RedeliveryChangesNothing;
    var p, r := s.owner.pos, s.owner.redelivered;
    DoneOfAppended(s.history, Ran(p, r, applied, final));
    AttemptedOfAppended(s.history, Ran(p, r, applied, final));
    var flags := Flags(s.history);
    if applied && |flags| == p {
      SequentialNext(h, s.log, flags, r, db0);
    } else if applied {
      AttemptedBelow(s);
      assert r;
      ReapplyChangesNothing(h, s.log, flags, p, db0);
    }
  }

  lemma SequentialNext<C, Db>(h: Handler<C, Db>, log: seq<Entry<C>>, flags: seq<bool>, flag: bool, db: Db)
    requires |flags| < |log|
    ensures Sequential(h, log, flags + [flag], db) ==
              var before := Sequential(h, log, flags, db); if log[|flags|].Malformed? then before else Handle(h, log[|flags|].cmd, flag, before)
  {
    assert (flags + [flag])[..|flags|] == flags;
  }

  lemma AttemptedBelow<C, Db>(s: State<C, Db>)
    requires Flagged(s)
    ensures forall o: nat :: AttemptedBefore(s.history, o) ==> o < Limit(s)
  {
  }

  lemma SkipRefines<C, Db>(h: Handler<C, Db>, db0: Db, s: State<C, Db>, t: State<C, Db>)
    requires Orderly(s) && Refines(h, db0, s) && s.owner.Fetching? && s.owner.pos < |s.log| && s.log[s.owner.pos].Malformed?
    requires t == s.(owner := Acknowledging(s.owner.pos), history := s.history + [Skipped(s.owner.pos)])
    ensures Refines(h, db0, t)
  {
    hide Done, Flags, AcksAfterDone, RepliesAfterAnswer, AttemptedBefore, Sequential;
    DoneOfAppended(s.history, Skipped(s.owner.pos));
    AttemptedOfAppended(s.history, Skipped(s.owner.pos));
    var flags := Flags(s.history);
    if |flags| == s.owner.pos {
      SequentialNext(h, s.log, flags, false, db0);
    }
  }

  lemma StepRefines<C(!new), Db(!new)>(h: Handler<C, Db>, db0: Db, s: State<C, Db>, step: Step<C>, t: State<C, Db>)
    requires RedeliveryChangesNothing(h)
    requires Orderly(s) && Refines(h, db0, s) && Next(h, s, step) == Some(t) && Promised(t)
    ensures Refines(h, db0, t)
  {
    hide Done, Flags, AcksAfterDone, RepliesAfterAnswer, AttemptedBefore, Sequential, RedeliveryChangesNothing;
    match step
    case Append(entry) => SequentialOfLongerLog(h, s.log, entry, Flags(s.history), db0);
    case Fetch => if s.log[s.owner.pos].Malformed? { SkipRefines(h, db0, s, t); }
    case RunToAnswer => AttemptRefines(h, db0, s, true, true, Replying(s.owner.pos), t);
    case RunTransient(applied) => AttemptRefines(h, db0, s, applied, false, BackingOff(s.owner.pos), t);
    case CrashWhileRunning(applied) => AttemptRefines(h, db0, s, applied, false, Nobody, t);
    case Reply(sent) => EventRefines(s.history, Replied(s.owner.pos));
    case Commit(acked) => EventRefines(s.history, Acked(s.owner.pos));
    case _ =>
  }

  /** Replies and acknowledgements leave what was done, attempted and applied. */
  lemma EventRefines(history: seq<Event>, e: Event)
    requires e.Replied? || e.Acked?
    ensures Done(history + [e]) == Done(history) && Flags(history + [e]) == Flags(history)
    ensures forall o :: AttemptedBefore(history + [e], o) <==> AttemptedBefore(history, o)
  {
    DoneOfAppended(history, e);
    AttemptedOfAppended(history, e);
  }

  // ----- what holds in every reachable state -----

  lemma {:induction false} RunKeepsOrder<C, Db>(h: Handler<C, Db>, db0: Db, steps: seq<Step<C>>, s: State<C, Db>)
    requires Exec(h, true, Initial(db0), steps) == Some(s)
    ensures Orderly(s)
    decreases |steps|
  {
    if steps != [] {
      var last := |steps| - 1;
      var mid := Exec(h, true, Initial(db0), steps[..last]).value;
      RunKeepsOrder(h, db0, steps[..last], mid);
      StepKeepsOrder(h, mid, steps[last], s);
    }
  }

  lemma {:induction false} RunRefines<C(!new), Db(!new)>(h: Handler<C, Db>, db0: Db, steps: seq<Step<C>>, s: State<C, Db>)
    requires RedeliveryChangesNothing(h)
    requires Exec(h, true, Initial(db0), steps) == Some(s)
    ensures Refines(h, db0, s)
    decreases |steps|
  {
    if steps != [] {
      var last := |steps| - 1;
      var mid := Exec(h, true, Initial(db0), steps[..last]).value;
      RunRefines(h, db0, steps[..last], mid);
      RunKeepsOrder(h, db0, steps[..last], mid);
      StepRefines(h, db0, mid, steps[last], s);
    }
  }

  lemma ReachableOrderly<C(!new), Db>(h: Handler<C, Db>, db0: Db, s: State<C, Db>)
    requires Reachable(h, db0, s)
    ensures Orderly(s)
  {
    var steps: seq<Step<C>> :| Exec(h, true, Initial(db0), steps) == Some(s);
    RunKeepsOrder(h, db0, steps, s);
  }

  /** Beyond the first unacknowledged offset there are only malformed records and what the present owner
      itself has reached. */
  predicate AtMostOneAhead<C, Db>(s: State<C, Db>, n: nat)
    requires n <= |s.log|
  {
    forall o :: s.committed < o < n ==> s.log[o].Malformed? || (!s.owner.Nobody? && o <= s.owner.pos)
  }

  /** The length of what is done. */
  lemma {:induction false} DoneIsPrefix<C, Db>(s: State<C, Db>, from: nat) returns (n: nat)
    requires Positioned(s) && from <= |s.log| && forall o: nat :: o < from ==> o in Done(s.history)
    ensures from <= n <= |s.log| && forall o: nat :: o in Done(s.history) <==> o < n
    decreases |s.log| - from
  {
    if from in Done(s.history) {
      n := DoneIsPrefix(s, from + 1);
    } else {
      n := from;
    }
  }

  /** Redelivery soundness, for any handler: what is done is exactly the first n offsets; acknowledgements
      and replies come after an answer; every attempt that is not the first at its offset is flagged; and
      a new owner meets at most one command that was answered and not acknowledged. */
  lemma RedeliverySound<C(!new), Db>(h: Handler<C, Db>, db0: Db, s: State<C, Db>) returns (n: nat)
    requires Reachable(h, db0, s)
    ensures s.committed <= n <= |s.log| && AtMostOneAhead(s, n)
    ensures forall o: nat :: o in Done(s.history) <==> o < n
    ensures AcksAfterDone(s.history) && RepliesAfterAnswer(s.history) && RedeliveriesFlagged(s.history)
  {
    ReachableOrderly(h, db0, s);
    n := DoneIsPrefix(s, s.committed);
    AttemptedBelow(s);
  }

  /** Refinement: whatever was appended, crashed, reassigned or retried, the database is the
      log's first n commands applied once each in order, and those n cover everything
      acknowledged and everything answered. */
  lemma DatabaseIsSequential<C(!new), Db(!new)>(h: Handler<C, Db>, db0: Db, s: State<C, Db>) returns (flags: seq<bool>)
    requires RedeliveryChangesNothing(h) && Reachable(h, db0, s)
    ensures s.committed <= |flags| <= |s.log| && AtMostOneAhead(s, |flags|)
    ensures forall o :: o in Done(s.history) ==> o < |flags|
    ensures s.db == Sequential(h, s.log, flags, db0)
  {
    var steps: seq<Step<C>> :| Exec(h, true, Initial(db0), steps) == Some(s);
    RunRefines(h, db0, steps, s);
    RunKeepsOrder(h, db0, steps, s);
    AttemptedBelow(s);
    flags := Flags(s.history);
  }

  // ----- without the flags -----

  function Repeated(flag: bool, n: nat): (flags: seq<bool>)
    ensures |flags| == n && forall k :: 0 <= k < n ==> flags[k] == flag
  {
    seq(n, _ => flag)
  }

  /** The log's first n commands applied once each, in order, none of them flagged. */
  function Plain<C, Db>(h: Handler<C, Db>, log: seq<Entry<C>>, n: nat, db: Db): Db
    requires n <= |log|
  {
    Sequential(h, log, Repeated(false, n), db)
  }

  /** On the state its predecessors leave, the flag does not change what a command does. */
  ghost predicate FlagBlind<C, Db>(h: Handler<C, Db>, log: seq<Entry<C>>, db0: Db) {
    forall k {:trigger log[k]} :: 0 <= k < |log| && log[k].Decoded? ==>
      Handle(h, log[k].cmd, true, Plain(h, log, k, db0)) == Handle(h, log[k].cmd, false, Plain(h, log, k, db0))
  }

  lemma PlainNext<C, Db>(h: Handler<C, Db>, log: seq<Entry<C>>, k: nat, db: Db)
    requires k < |log|
    ensures Plain(h, log, k + 1, db) == if log[k].Malformed? then Plain(h, log, k, db) else Handle(h, log[k].cmd, false, Plain(h, log, k, db))
  {
    assert Repeated(false, k + 1)[..k] == Repeated(false, k);
  }

  lemma {:induction false} FlagsDoNotMatter<C, Db>(h: Handler<C, Db>, log: seq<Entry<C>>, flags: seq<bool>, db0: Db)
    requires |flags| <= |log| && FlagBlind(h, log, db0)
    ensures Sequential(h, log, flags, db0) == Plain(h, log, |flags|, db0)
    decreases |flags|
  {
    if flags == [] {
      assert flags == Repeated(false, 0);
    } else {
      FlagsDoNotMatter(h, log, flags[..|flags| - 1], db0);
      PlainNext(h, log, |flags| - 1, db0);
    }
  }

  /** Reachable states are closed under the steps the environment allows. */
  lemma ReachNext<C(!new), Db>(h: Handler<C, Db>, db0: Db, s: State<C, Db>, step: Step<C>) returns (t: State<C, Db>)
    requires Reachable(h, db0, s) && Next(h, s, step).Some? && Promised(Next(h, s, step).value)
    ensures Reachable(h, db0, t) && Next(h, s, step) == Some(t)
  {
    t := Next(h, s, step).value;
    var steps: seq<Step<C>> :| Exec(h, true, Initial(db0), steps) == Some(s);
    assert (steps + [step])[..|steps|] == steps;
    assert Exec(h, true, Initial(db0), steps + [step]) == Some(t);
  }

  /** The run in which every command is the first its owner reads: each is applied once, flagged. */
  lemma {:induction false} TakeoverBeforeEveryCommand<C(!new), Db>(h: Handler<C, Db>, db0: Db, log: seq<Entry<C>>) returns (s: State<C, Db>)
    ensures Reachable(h, db0, s) && s.log == log && s.committed == |log| && s.owner.Nobody?
    ensures s.db == Sequential(h, log, Repeated(true, |log|), db0)
    decreases |log|
  {
    hide Next, Promised;
    if log == [] {
      s := Initial(db0);
      assert Exec(h, true, Initial(db0), []) == Some(s);
    } else {
      var n := |log| - 1;
      var before := TakeoverBeforeEveryCommand(h, db0, log[..n]);
      s := TakeoverAndRun(h, db0, before, log[n]);
      SequentialOfLongerLog(h, log[..n], log[n], Repeated(true, n), db0);
      assert log[..n] + [log[n]] == log && Repeated(true, |log|)[..n] == Repeated(true, n);
    }
  }

  lemma TakeoverAndRun<C(!new), Db>(h: Handler<C, Db>, db0: Db, s: State<C, Db>, entry: Entry<C>) returns (t: State<C, Db>)
    requires Reachable(h, db0, s) && s.committed == |s.log| && s.owner.Nobody?
    ensures Reachable(h, db0, t) && t.log == s.log + [entry] && t.committed == |t.log| && t.owner.Nobody?
    ensures t.db == if entry.Malformed? then s.db else Handle(h, entry.cmd, true, s.db)
  {
    hide Reachable, Exec, Covered;
    CoveredWithinLimit(h, db0, s);
    SameCovered(s, s.(log := s.log + [entry]));
    t := ReachNext(h, db0, s, Append(entry));
    t := ReachNext(h, db0, t, Assign);
    t := ReachNext(h, db0, t, Fetch);
    if entry.Decoded? {
      t := ReachNext(h, db0, t, RunToAnswer);
      t := ReachNext(h, db0, t, Reply(true));
    }
    t := ReachNext(h, db0, t, Commit(true));
    CoveredWithinLimit(h, db0, t);
    SameCovered(t, t.(owner := Nobody));
    t := ReachNext(h, db0, t, Revoke);
  }

  lemma CoveredWithinLimit<C(!new), Db>(h: Handler<C, Db>, db0: Db, s: State<C, Db>)
    requires Reachable(h, db0, s) && Limit(s) <= s.committed + 1
    ensures Covered(s)
  {
    ReachableOrderly(h, db0, s);
  }

  lemma SameCovered<C, Db>(s: State<C, Db>, t: State<C, Db>)
    requires Covered(s) && s.history == t.history && s.committed == t.committed
    ensures Covered(t)
  {
  }

  /** Once everything is acknowledged, the database is the plain in-order application of the whole
      log in every run exactly when no command is sensitive to the flag on its predecessors' state. */
  lemma PlainExactlyWhenFlagBlind<C(!new), Db(!new)>(h: Handler<C, Db>, db0: Db)
    requires RedeliveryChangesNothing(h)
    ensures (forall log :: FlagBlind(h, log, db0)) <==>
            (forall s: State<C, Db> :: Reachable(h, db0, s) && s.committed == |s.log| ==> s.db == Plain(h, s.log, |s.log|, db0))
  {
    hide Reachable, Sequential, RedeliveryChangesNothing, Done;
    if forall log :: FlagBlind(h, log, db0) {
      forall s: State<C, Db> | Reachable(h, db0, s) && s.committed == |s.log| ensures s.db == Plain(h, s.log, |s.log|, db0) {
        var flags := DatabaseIsSequential(h, db0, s);
        FlagsDoNotMatter(h, s.log, flags, db0);
      }
    }
    if forall s: State<C, Db> :: Reachable(h, db0, s) && s.committed == |s.log| ==> s.db == Plain(h, s.log, |s.log|, db0) {
      forall log: seq<Entry<C>>, k | 0 <= k < |log| && log[k].Decoded?
        ensures Handle(h, log[k].cmd, true, Plain(h, log, k, db0)) == Handle(h, log[k].cmd, false, Plain(h, log, k, db0))
      {
        SensitiveWouldShow(h, db0, log, k);
      }
    }
  }

  lemma SensitiveWouldShow<C(!new), Db(!new)>(h: Handler<C, Db>, db0: Db, log: seq<Entry<C>>, k: nat)
    requires k < |log| && log[k].Decoded?
    requires forall s: State<C, Db> :: Reachable(h, db0, s) && s.committed == |s.log| ==> s.db == Plain(h, s.log, |s.log|, db0)
    ensures Handle(h, log[k].cmd, true, Plain(h, log, k, db0)) == Handle(h, log[k].cmd, false, Plain(h, log, k, db0))
  {
    hide Reachable, Exec, Next;
    var before := TakeoverBeforeEveryCommand(h, db0, log[..k]);
    var after := TakeoverBeforeEveryCommand(h, db0, log[..k + 1]);
    assert log[..k + 1] == log[..k] + [log[k]];
    SequentialOfPrefix(h, log, k, Repeated(false, k), db0);
    SequentialOfPrefix(h, log, k + 1, Repeated(false, k + 1), db0);
    SequentialOfLongerLog(h, log[..k], log[k], Repeated(true, k), db0);
    PlainNext(h, log, k, db0);
    assert Repeated(true, k + 1)[..k] == Repeated(true, k);
  }

  lemma {:induction false} SequentialOfPrefix<C, Db>(h: Handler<C, Db>, log: seq<Entry<C>>, n: nat, flags: seq<bool>, db: Db)
    requires |flags| <= n <= |log|
    ensures Sequential(h, log[..n], flags, db) == Sequential(h, log, flags, db)
    decreases |flags|
  {
    if flags != [] {
      SequentialOfPrefix(h, log, n, flags[..|flags| - 1], db);
    }
  }

  // ----- the promise is the weakest -----

  lemma {:induction false} ExecAppend<C, Db>(h: Handler<C, Db>, promise: bool, s: State<C, Db>, a: seq<Step<C>>, b: seq<Step<C>>)
    ensures Exec(h, promise, s, a + b) == var mid := Exec(h, promise, s, a); if mid.None? then None else Exec(h, promise, mid.value, b)
    decreases |b|
  {
    if b == [] {
      assert a + b == a;
    } else {
      var n := |b| - 1;
      ExecAppend(h, promise, s, a, b[..n]);
      assert (a + b)[..|a + b| - 1] == a + b[..n];
    }
  }

  /** The run `steps` from `start`, ending in `s`, continued by one step. */
  lemma Onward<C, Db>(h: Handler<C, Db>, promise: bool, start: State<C, Db>, steps: seq<Step<C>>, s: State<C, Db>, step: Step<C>)
    returns (longer: seq<Step<C>>, t: State<C, Db>)
    requires Exec(h, promise, start, steps) == Some(s) && Next(h, s, step).Some? && (promise ==> Promised(Next(h, s, step).value))
    ensures Exec(h, promise, start, longer) == Some(t) && Next(h, s, step) == Some(t)
  {
    longer, t := steps + [step], Next(h, s, step).value;
    assert longer[..|steps|] == steps;
  }

  /** The owner fetches a command, answers it, fails to reply and acknowledges it or not. */
  lemma AnswerOne<C, Db>(h: Handler<C, Db>, promise: bool, start: State<C, Db>, steps: seq<Step<C>>, s: State<C, Db>, acked: bool)
    returns (longer: seq<Step<C>>, t: State<C, Db>)
    requires Exec(h, promise, start, steps) == Some(s)
    requires s.owner.Fetching? && s.owner.pos < |s.log| && s.log[s.owner.pos].Decoded?
    ensures Exec(h, promise, start, longer) == Some(t)
    ensures var ran := Ran(s.owner.pos, s.owner.first, true, true);
            && t.log == s.log && t.owner == Fetching(s.owner.pos + 1, false)
            && t.committed == (if acked then s.owner.pos + 1 else s.committed)
            && t.history == s.history + [ran] + (if acked then [Acked(s.owner.pos)] else [])
            && t.db == Handle(h, s.log[s.owner.pos].cmd, s.owner.first, s.db)
  {
    hide Exec;
    longer, t := Onward(h, promise, start, steps, s, Fetch);
    longer, t := Onward(h, promise, start, longer, t, RunToAnswer);
    longer, t := Onward(h, promise, start, longer, t, Reply(false));
    longer, t := Onward(h, promise, start, longer, t, Commit(acked));
  }

  /** The later history starts with the earlier one. */
  predicate Extends(early: seq<Event>, late: seq<Event>) {
    |early| <= |late| && late[..|early|] == early
  }

  /** The owner, never failing, comes to the record at `o`. */
  lemma {:induction false} CatchUp<C, Db>(h: Handler<C, Db>, start: State<C, Db>, steps: seq<Step<C>>, s: State<C, Db>, o: nat)
    returns (longer: seq<Step<C>>, t: State<C, Db>)
    requires Exec(h, true, start, steps) == Some(s) && s.owner.Fetching? && s.owner.pos <= o < |s.log|
    ensures Exec(h, true, start, longer) == Some(t) && t.log == s.log && Extends(s.history, t.history)
    ensures t.owner == Fetching(o, s.owner.first && s.owner.pos == o)
    decreases o - s.owner.pos
  {
    hide Exec;
    longer, t := steps, s;
    if s.owner.pos < o {
      if s.log[s.owner.pos].Decoded? {
        longer, t := AnswerOne(h, true, start, steps, s, true);
      } else {
        longer, t := Onward(h, true, start, longer, t, Fetch);
        longer, t := Onward(h, true, start, longer, t, Commit(true));
      }
      assert Extends(s.history, t.history);
      longer, t := CatchUp(h, start, longer, t, o);
    }
  }

  /** Attempts are at commands of the log, promise or not. */
  ghost predicate AtCommands<C, Db>(s: State<C, Db>) {
    forall i :: 0 <= i < |s.history| && s.history[i].Ran? ==> s.history[i].offset < |s.log| && s.log[s.history[i].offset].Decoded?
  }

  /** A command attempted beyond the first unacknowledged one, with nobody owning the partition, will be
      run again unflagged by an owner that does everything right. */
  lemma UncoveredRunsAgain<C, Db>(h: Handler<C, Db>, s: State<C, Db>) returns (more: seq<Step<C>>, u: State<C, Db>)
    requires AtCommands(s) && s.owner.Nobody? && !Covered(s)
    ensures Exec(h, true, s, more) == Some(u) && !RedeliveriesFlagged(u.history)
  {
    hide Exec, RedeliveriesFlagged;
    var i :| 0 <= i < |s.history| && s.history[i].Ran? && s.history[i].offset > s.committed;
    var o := s.history[i].offset;
    more, u := NoStep(h, s);
    more, u := Onward(h, true, s, more, u, Assign);
    more, u := CatchUp(h, s, more, u, o);
    var met := u;
    assert met.history[..|s.history|][i] == s.history[i];
    more, u := AnswerOne(h, true, s, more, u, true);
    assert u.history[|met.history|] == Ran(o, false, true, true);
    Unflagged(u.history, i, |met.history|);
  }

  lemma NoStep<C, Db>(h: Handler<C, Db>, s: State<C, Db>) returns (steps: seq<Step<C>>, t: State<C, Db>)
    ensures Exec(h, true, s, steps) == Some(t) && t == s
  {
    steps, t := [], s;
  }

  lemma Unflagged(history: seq<Event>, i: nat, j: nat)
    requires i < j < |history| && history[i].Ran? && history[j].Ran? && history[i].offset == history[j].offset && !history[j].redelivered
    ensures !RedeliveriesFlagged(history)
  {
  }

  /** The promise asks for no more than is needed: a step of a promised run keeps it if and only if, after
      that step, every repeated attempt of every promised run is flagged. */
  lemma PromiseIsWeakest<C(!new), Db(!new)>(h: Handler<C, Db>, db0: Db, s: State<C, Db>, step: Step<C>, t: State<C, Db>)
    requires Reachable(h, db0, s) && Next(h, s, step) == Some(t)
    ensures Promised(t) <==> forall more: seq<Step<C>>, u: State<C, Db> :: Exec(h, true, t, more) == Some(u) ==> RedeliveriesFlagged(u.history)
  {
    hide Exec, RedeliveriesFlagged;
    if Promised(t) {
      var r := ReachNext(h, db0, s, step);
      forall more: seq<Step<C>>, u: State<C, Db> | Exec(h, true, t, more) == Some(u) ensures RedeliveriesFlagged(u.history) {
        ReachOn(h, db0, t, more, u);
        ReachableOrderly(h, db0, u);
      }
    } else {
      ReachableOrderly(h, db0, s);
      StepStaysAtCommands(h, s, step, t);
      var more, u := UncoveredRunsAgain(h, t);
    }
  }

  lemma ReachOn<C(!new), Db>(h: Handler<C, Db>, db0: Db, s: State<C, Db>, more: seq<Step<C>>, u: State<C, Db>)
    requires Reachable(h, db0, s) && Exec(h, true, s, more) == Some(u)
    ensures Reachable(h, db0, u)
  {
    var steps: seq<Step<C>> :| Exec(h, true, Initial(db0), steps) == Some(s);
    ExecAppend(h, true, Initial(db0), steps, more);
    assert Exec(h, true, Initial(db0), steps + more) == Some(u);
  }

  lemma StepStaysAtCommands<C, Db>(h: Handler<C, Db>, s: State<C, Db>, step: Step<C>, t: State<C, Db>)
    requires AtCommands(s) && Next(h, s, step) == Some(t)
    ensures AtCommands(t)
  {
  }

  // ----- a way to keep it -----

  /** Whoever fetches has everything before it acknowledged: a failed acknowledgement costs the partition
      before the next fetch. */
  ghost predicate Cautious<C, Db>(h: Handler<C, Db>, s: State<C, Db>, steps: seq<Step<C>>)
    decreases |steps|
  {
    steps != [] ==>
      var n := |steps| - 1;
      var mid := Exec(h, false, s, steps[..n]);
      Cautious(h, s, steps[..n]) && (steps[n].Fetch? && mid.Some? && mid.value.owner.Fetching? ==> mid.value.owner.pos <= mid.value.committed)
  }

  /** Nothing was attempted or skipped beyond the first unacknowledged offset. */
  ghost predicate Close<C, Db>(s: State<C, Db>) {
    && (forall i :: 0 <= i < |s.history| && (s.history[i].Ran? || s.history[i].Skipped?) ==> s.history[i].offset <= s.committed)
    && (AtCommand(s.owner) || s.owner.Acknowledging? ==> s.owner.pos <= s.committed)
    && (s.owner.Fetching? ==> s.owner.pos <= s.committed + 1)
  }

  lemma StepStaysClose<C, Db>(h: Handler<C, Db>, s: State<C, Db>, step: Step<C>, t: State<C, Db>)
    requires Close(s) && Next(h, s, step) == Some(t) && s.committed <= Floor(s)
    requires step.Fetch? && s.owner.Fetching? ==> s.owner.pos <= s.committed
    ensures Close(t) && Promised(t) && t.committed <= Floor(t)
  {
  }

  lemma {:induction false} CautiousRunIsPromised<C, Db>(h: Handler<C, Db>, db0: Db, steps: seq<Step<C>>, s: State<C, Db>)
    requires Exec(h, false, Initial(db0), steps) == Some(s) && Cautious(h, Initial(db0), steps)
    ensures Exec(h, true, Initial(db0), steps) == Some(s) && Close(s) && s.committed <= Floor(s)
    decreases |steps|
  {
    hide Next, Close;
    if steps == [] {
      InitialClose<C, Db>(db0);
    } else {
      var n := |steps| - 1;
      var mid := Exec(h, false, Initial(db0), steps[..n]).value;
      CautiousRunIsPromised(h, db0, steps[..n], mid);
      StepStaysClose(h, mid, steps[n], s);
    }
  }

  lemma InitialClose<C, Db>(db0: Db)
    ensures Close(Initial<C, Db>(db0))
  {
  }

  lemma {:induction false} FlagsWithin(history: seq<Event>, bound: nat)
    requires forall i :: 0 <= i < |history| && (history[i].Ran? || history[i].Skipped?) ==> history[i].offset <= bound
    ensures |Flags(history)| <= bound + 1
    decreases |history|
  {
    if history != [] {
      FlagsWithin(history[..|history| - 1], bound);
    }
  }

  /** Such runs keep the promise, and at most one offset is done, or applied, and not acknowledged. */
  lemma CautiousOwnersStayClose<C(!new), Db>(h: Handler<C, Db>, db0: Db, steps: seq<Step<C>>, s: State<C, Db>)
    requires Exec(h, false, Initial(db0), steps) == Some(s) && Cautious(h, Initial(db0), steps)
    ensures Reachable(h, db0, s) && (forall o :: o in Done(s.history) ==> o <= s.committed) && |Flags(s.history)| <= s.committed + 1
  {
    CautiousRunIsPromised(h, db0, steps, s);
    FlagsWithin(s.history, s.committed);
  }

  /** What goes wrong without the promise: a command already answered runs a second time unflagged, and
      its effect with it. */
  lemma FailedAcksBreakRedelivery<C, Db>(h: Handler<C, Db>, db0: Db, a: C, b: C) returns (steps: seq<Step<C>>, s: State<C, Db>)
    ensures Exec(h, false, Initial(db0), steps) == Some(s)
    ensures !RedeliveriesFlagged(s.history)
    ensures s.db == Handle(h, b, false, Handle(h, a, true, Handle(h, b, false, Handle(h, a, true, db0))))
  {
    var start: State<C, Db> := Initial(db0);
    steps, s := [], start;
    steps, s := Onward(h, false, start, steps, s, Append(Decoded(a)));
    steps, s := Onward(h, false, start, steps, s, Append(Decoded(b)));
    steps, s := Onward(h, false, start, steps, s, Assign);
    steps, s := AnswerOne(h, false, start, steps, s, false);
    steps, s := AnswerOne(h, false, start, steps, s, false);
    assert s.history == [Ran(0, true, true, true), Ran(1, false, true, true)];
    steps, s := Onward(h, false, start, steps, s, Crash);
    steps, s := Onward(h, false, start, steps, s, Assign);
    steps, s := AnswerOne(h, false, start, steps, s, true);
    steps, s := AnswerOne(h, false, start, steps, s, true);
    assert s.history[1] == Ran(1, false, true, true);
    assert s.history[4] == Ran(1, false, true, true);
  }
}
