/** The replica's side of a partition: which partitions it owns, and the loop that fetches, runs,
    answers and acknowledges commands. Everything outside the loop (Kafka, the handler's database,
    the end of the generation, the death of the process) answers through a script, one choice at
    each call the loop blocks on, so that a method run for every script is the loop run in every
    environment. */
module PartitionProcessor {

  import opened Wrappers
  import opened PartitionMachine
  import Routing

  /** What the environment decides at one blocking call: what was appended meanwhile, whether the
      process dies there and, where it runs a command, after calling the handler, whether the call
      succeeds, whether a failed attempt took effect, and whether the generation has ended. */
  datatype Choice<+C> = Choice(arrivals: seq<Entry<C>>, dies: bool, calls: bool, ok: bool, applied: bool, ended: bool)

  type Script<+C> = seq<Choice<C>>

  // ----- runs from the front -----

  /** The state after a run, step by step from its first. */
  function Follow<C, Db>(h: Handler<C, Db>, promise: bool, s: State<C, Db>, steps: seq<Step<C>>): Option<State<C, Db>>
    decreases |steps|
  {
    if steps == [] then Some(s)
    else
      var t := Next(h, s, steps[0]);
      if t.None? || (promise && !Promised(t.value)) then None else Follow(h, promise, t.value, steps[1..])
  }

  lemma {:induction false} FollowAppend<C, Db>(h: Handler<C, Db>, promise: bool, s: State<C, Db>, a: seq<Step<C>>, b: seq<Step<C>>)
    ensures Follow(h, promise, s, a + b) == var mid := Follow(h, promise, s, a); if mid.None? then None else Follow(h, promise, mid.value, b)
    decreases |a|
  {
    if a == [] {
      assert a + b == b;
    } else if Next(h, s, a[0]).Some? {
      assert (a + b)[1..] == a[1..] + b;
      FollowAppend(h, promise, Next(h, s, a[0]).value, a[1..], b);
    }
  }

  lemma {:induction false} FollowIsExec<C, Db>(h: Handler<C, Db>, promise: bool, s: State<C, Db>, steps: seq<Step<C>>)
    ensures Follow(h, promise, s, steps) == Exec(h, promise, s, steps)
    decreases |steps|
  {
    if steps != [] {
      var n := |steps| - 1;
      FollowIsExec(h, promise, s, steps[..n]);
      FollowAppend(h, promise, s, steps[..n], [steps[n]]);
      assert steps == steps[..n] + [steps[n]];
      assert [steps[n]][1..] == [];
    }
  }

  // ----- what the loop does with a choice -----

  function Appends<C>(arrivals: seq<Entry<C>>): (steps: seq<Step<C>>)
    ensures |steps| == |arrivals| && forall i :: 0 <= i < |steps| ==> steps[i] == Append(arrivals[i])
  {
    seq(|arrivals|, i requires 0 <= i < |arrivals| => Append(arrivals[i]))
  }

  function Joined<C, Db>(s: State<C, Db>, arrivals: seq<Entry<C>>): State<C, Db> {
    s.(log := s.log + arrivals)
  }

  lemma {:induction false} AppendsFollow<C, Db>(h: Handler<C, Db>, promise: bool, s: State<C, Db>, arrivals: seq<Entry<C>>)
    requires promise ==> Promised(s)
    ensures Follow(h, promise, s, Appends(arrivals)) == Some(Joined(s, arrivals))
    decreases |arrivals|
  {
    if arrivals == [] {
      assert s.log + arrivals == s.log;
    } else {
      AppendsFollow(h, promise, s.(log := s.log + [arrivals[0]]), arrivals[1..]);
      assert Appends(arrivals)[1..] == Appends(arrivals[1..]);
      assert s.log + [arrivals[0]] + arrivals[1..] == s.log + arrivals;
    }
  }

  /** The owner is at a call it blocks on: fetching, running a command or acknowledging. */
  predicate Blocked<C, Db>(s: State<C, Db>) {
    match s.owner
    case Fetching(_, _) => true
    case Executing(pos, _) => pos < |s.log| && s.log[pos].Decoded?
    case Acknowledging(_) => true
    case _ => false
  }

  /** The owner is given the record at its cursor. */
  predicate Fetches<C, Db>(s: State<C, Db>, choice: Choice<C>) {
    s.owner.Fetching? && !choice.dies && choice.ok && s.owner.pos < |s.log| + |choice.arrivals|
  }

  /** What the loop does once the choice's arrivals are there, up to its next blocking call or its end. */
  function Reaction<C, Db>(s: State<C, Db>, choice: Choice<C>): seq<Step<C>>
    requires Blocked(s)
  {
    match s.owner
    case Fetching(pos, _) =>
      if choice.dies then [Crash]
      else if choice.ok && pos < |s.log| then [Fetch]
      else if choice.ended then [Revoke]
      else []
    case Executing(_, _) =>
      if choice.dies then [if choice.calls then CrashWhileRunning(choice.applied) else Crash]
      else if choice.ok then [RunToAnswer, Reply(!choice.ended)]
      else [RunTransient(choice.applied), if choice.ended then Revoke else Retry]
    case Acknowledging(_) => [if choice.dies then Crash else Commit(choice.ok)]
  }

  /** Some steps and the state they lead to. */
  datatype Trail<C, Db> = Trail(steps: seq<Step<C>>, state: State<C, Db>)

  function Then<C, Db>(a: Trail<C, Db>, b: Trail<C, Db>): Trail<C, Db> { Trail(a.steps + b.steps, b.state) }

  lemma ReactionFollows<C, Db>(h: Handler<C, Db>, s: State<C, Db>, choice: Choice<C>)
    requires Blocked(s)
    ensures var t := Follow(h, false, s, Reaction(s, choice)); t.Some? && (Blocked(t.value) || t.value.owner.Nobody?)
    ensures var t := Follow(h, false, s, Reaction(s, choice)).value; Follow(h, true, s, Reaction(s, choice)) == if Promised(t) then Some(t) else None
  {
    var steps := Reaction(s, choice);
    if |steps| == 2 {
      FollowTwo(h, false, s, steps[0], steps[1]);
      FollowTwo(h, true, s, steps[0], steps[1]);
      assert steps == [steps[0], steps[1]];
    } else if |steps| == 1 {
      assert steps[1..] == [];
    }
  }

  lemma FollowTwo<C, Db>(h: Handler<C, Db>, promise: bool, s: State<C, Db>, a: Step<C>, b: Step<C>)
    requires promise ==> var mid := Next(h, s, a); mid.Some? && !mid.value.owner.Nobody?
    ensures Follow(h, promise, s, [a, b]) ==
              var mid := Next(h, s, a); if mid.None? then None else var t := Next(h, mid.value, b); if t.Some? && promise && !Promised(t.value) then None else t
  {
    hide Next, Covered;
    assert [a, b][1..] == [b] && [b][1..] == [];
    var mid := Next(h, s, a);
    if mid.Some? && Next(h, mid.value, b).Some? {
      assert Follow(h, false, mid.value, [b]) == Follow(h, false, Next(h, mid.value, b).value, []);
      assert Promised(Next(h, mid.value, b).value) ==> Follow(h, promise, mid.value, [b]) == Follow(h, promise, Next(h, mid.value, b).value, []);
    }
  }

  /** One choice: the arrivals, and what the loop does then. */
  function Turn<C, Db>(h: Handler<C, Db>, s: State<C, Db>, choice: Choice<C>): (r: Trail<C, Db>)
    requires Blocked(s)
    ensures Follow(h, false, s, r.steps) == Some(r.state) && (Blocked(r.state) || r.state.owner.Nobody?)
  {
    var met := Joined(s, choice.arrivals);
    AppendsFollow(h, false, s, choice.arrivals);
    ReactionFollows(h, met, choice);
    FollowAppend(h, false, s, Appends(choice.arrivals), Reaction(met, choice));
    Trail(Appends(choice.arrivals) + Reaction(met, choice), Follow(h, false, met, Reaction(met, choice)).value)
  }

  /** The loop from a blocking call on: one choice after the other until it ends; out of choices, the
      process dies. */
  function Drive<C, Db>(h: Handler<C, Db>, s: State<C, Db>, script: Script<C>): Trail<C, Db>
    requires Blocked(s) || s.owner.Nobody?
    decreases |script|
  {
    if s.owner.Nobody? then Trail([], s)
    else if script == [] then Trail([Crash], Next(h, s, Crash).value)
    else
      var turn := Turn(h, s, script[0]);
      Then(turn, Drive(h, turn.state, script[1..]))
  }

  function Assigned<C, Db>(s: State<C, Db>): State<C, Db> {
    s.(owner := Fetching(s.committed, true))
  }

  /** A replica's whole time as the owner of a partition nobody owns. */
  function Tenure<C, Db>(h: Handler<C, Db>, s: State<C, Db>, script: Script<C>): Trail<C, Db>
    requires s.owner.Nobody?
  {
    Then(Trail([Assign], Assigned(s)), Drive(h, Assigned(s), script))
  }

  // ----- the object -----

  lemma FollowOne<C, Db>(h: Handler<C, Db>, s: State<C, Db>, step: Step<C>)
    ensures Follow(h, false, s, [step]) == Next(h, s, step)
  {
    assert [step][1..] == [];
  }

  /** What is still to come, with the next choice taken apart. */
  lemma DriveNext<C, Db>(h: Handler<C, Db>, done: Trail<C, Db>, left: Script<C>)
    requires Blocked(done.state)
    ensures left == [] ==> Then(done, Drive(h, done.state, left)) == Trail(done.steps + [Crash], Next(h, done.state, Crash).value)
    ensures left != [] ==>
              var met := Joined(done.state, left[0].arrivals);
              var re := Reaction(met, left[0]);
              var next := Follow(h, false, met, re);
              && next.Some? && (Blocked(next.value) || next.value.owner.Nobody?)
              && Then(done, Drive(h, done.state, left)) == Then(Trail(done.steps + Appends(left[0].arrivals) + re, next.value), Drive(h, next.value, left[1..]))
  {
    if left != [] {
      var turn := Turn(h, done.state, left[0]);
      ReactionFollows(h, Joined(done.state, left[0].arrivals), left[0]);
      Regroup(done.steps, Appends(left[0].arrivals), Reaction(Joined(done.state, left[0].arrivals), left[0]), Drive(h, turn.state, left[1..]).steps);
    }
  }

  lemma Regroup<C>(a: seq<Step<C>>, b: seq<Step<C>>, c: seq<Step<C>>, d: seq<Step<C>>)
    ensures a + ((b + c) + d) == ((a + b) + c) + d
  {
  }

  /** A loop that has ended has nothing to come. */
  lemma DriveOver<C, Db>(h: Handler<C, Db>, done: Trail<C, Db>, left: Script<C>)
    requires done.state.owner.Nobody?
    ensures Then(done, Drive(h, done.state, left)) == done
  {
    assert done.steps + [] == done.steps;
  }

  class Processor {
    var owned: map<int, bool>
    const partitions: nat

    constructor (partitions: nat)
      requires partitions > 0
      ensures owned == map[] && this.partitions == partitions
    {
      this.owned, this.partitions := map[], partitions;
    }

    /** Whether this replica currently owns the partition of `key`. */
    predicate Owns(key: Routing.Uuid)
      requires partitions > 0
      reads this
    {
      Routing.PartitionOf(key, partitions) in owned && owned[Routing.PartitionOf(key, partitions)]
    }

    /** Changes the answer for exactly the keys of one partition. */
    method SetOwned(partition: int, owns: bool)
      modifies this
      ensures owned == if owns then old(owned)[partition := true] else old(owned) - {partition}
      ensures partitions > 0 ==> forall key :: Owns(key) == if Routing.PartitionOf(key, partitions) == partition then owns else old(Owns(key))
    {
      if owns {
        owned := owned[partition := true];
      } else {
        owned := owned - {partition};
      }
    }

    /** Owns a partition until the script has the process die or the partition taken away: fetches, runs,
        answers and acknowledges exactly as the script's choices have it, and in the end no longer
        counts the partition as owned. */
    method Own<C, Db>(h: Handler<C, Db>, partition: int, start: State<C, Db>, script: Script<C>)
      returns (s: State<C, Db>, steps: seq<Step<C>>)
      requires start.owner.Nobody?
      modifies this
      ensures Trail(steps, s) == Tenure(h, start, script)
      ensures owned == old(owned) - {partition}
    {
      hide Drive, Turn;
      SetOwned(partition, true);
      steps, s := [Assign], Assigned(start);
      var offset: nat, first, left := start.committed, true, script;
      ghost var whole := Tenure(h, start, script);
      while true
        invariant s.owner == Fetching(offset, first) && Then(Trail(steps, s), Drive(h, s, left)) == whole
        invariant owned == old(owned)[partition := true]
        decreases |left|
      {
        DriveNext(h, Trail(steps, s), left);
        if left == [] {
          steps, s := steps + [Crash], Next(h, s, Crash).value;
          break;
        }
        var fetch := left[0];
        left := left[1..];
        steps, s := steps + Appends(fetch.arrivals), Joined(s, fetch.arrivals);
        if fetch.dies {
          FollowOne(h, s, Crash);
          steps, s := steps + [Crash], Next(h, s, Crash).value;
          DriveOver(h, Trail(steps, s), left);
          break;
        }
        if !fetch.ok || offset >= |s.log| {
          if fetch.ended {
            FollowOne(h, s, Revoke);
            steps, s := steps + [Revoke], Next(h, s, Revoke).value;
            DriveOver(h, Trail(steps, s), left);
            break;
          }
          assert steps + [] == steps;
          continue;
        }
        FollowOne(h, s, Fetch);
        steps, s := steps + [Fetch], Next(h, s, Fetch).value;
        var going;
        steps, s, left, going := Serve(h, steps, s, left, offset, first);
        if !going {
          DriveOver(h, Trail(steps, s), left);
          break;
        }
        offset, first := offset + 1, false;
      }
      SetOwned(partition, false);
    }

    /** A record just fetched: run to an answer unless it is malformed, and acknowledged. An acknowledgement
        that fails changes nothing about going on. */
    method Serve<C, Db>(h: Handler<C, Db>, before: seq<Step<C>>, found: State<C, Db>, script: Script<C>, offset: nat, first: bool)
      returns (steps: seq<Step<C>>, s: State<C, Db>, left: Script<C>, going: bool)
      requires Blocked(found) && (found.owner == Executing(offset, first) || found.owner == Acknowledging(offset))
      ensures Blocked(s) || s.owner.Nobody?
      ensures Then(Trail(steps, s), Drive(h, s, left)) == Then(Trail(before, found), Drive(h, found, script)) && |left| <= |script|
      ensures s.owner == if going then Fetching(offset + 1, false) else Nobody
    {
      hide Drive, Turn;
      steps, s, left, going := before, found, script, true;
      if found.owner.Executing? {
        steps, s, left, going := RunCommand(h, before, found, script, offset, first);
      }
      if !going {
        return;
      }
      DriveNext(h, Trail(steps, s), left);
      if left == [] {
        steps, s, going := steps + [Crash], Next(h, s, Crash).value, false;
        DriveOver(h, Trail(steps, s), left);
        return;
      }
      var ack := left[0];
      left := left[1..];
      steps, s := steps + Appends(ack.arrivals), Joined(s, ack.arrivals);
      going := !ack.dies;
      if ack.dies {
        FollowOne(h, s, Crash);
        steps, s := steps + [Crash], Next(h, s, Crash).value;
      } else {
        FollowOne(h, s, Commit(ack.ok));
        steps, s := steps + [Commit(ack.ok)], Next(h, s, Commit(ack.ok)).value;
      }
    }

    /** Runs one command until it has an answer, retrying a transient failure as a redelivery. */
    method RunCommand<C, Db>(h: Handler<C, Db>, before: seq<Step<C>>, found: State<C, Db>, script: Script<C>, offset: nat, first: bool)
      returns (steps: seq<Step<C>>, s: State<C, Db>, left: Script<C>, answered: bool)
      requires Blocked(found) && found.owner == Executing(offset, first)
      ensures Blocked(s) || s.owner.Nobody?
      ensures Then(Trail(steps, s), Drive(h, s, left)) == Then(Trail(before, found), Drive(h, found, script)) && |left| <= |script|
      ensures s.owner == if answered then Acknowledging(offset) else Nobody
    {
      hide Drive, Turn;
      var redelivered := first;
      steps, s, left := before, found, script;
      ghost var whole := Then(Trail(before, found), Drive(h, found, script));
      while true
        invariant Blocked(s) && s.owner == Executing(offset, redelivered) && |left| <= |script|
        invariant Then(Trail(steps, s), Drive(h, s, left)) == whole
        decreases |left|
      {
        DriveNext(h, Trail(steps, s), left);
        if left == [] {
          steps, s, answered := steps + [Crash], Next(h, s, Crash).value, false;
          DriveOver(h, Trail(steps, s), left);
          return;
        }
        var attempt := left[0];
        left := left[1..];
        steps, s := steps + Appends(attempt.arrivals), Joined(s, attempt.arrivals);
        ghost var met := s;
        if attempt.dies {
          var dying := if attempt.calls then CrashWhileRunning(attempt.applied) else Crash;
          FollowOne(h, s, dying);
          steps, s, answered := steps + [dying], Next(h, s, dying).value, false;
          return;
        }
        if attempt.ok {
          FollowTwo(h, false, met, RunToAnswer, Reply(!attempt.ended));
          s := Next(h, s, RunToAnswer).value;
          steps, s, answered := steps + [RunToAnswer, Reply(!attempt.ended)], Next(h, s, Reply(!attempt.ended)).value, true;
          return;
        }
        var after := if attempt.ended then Revoke else Retry;
        FollowTwo(h, false, met, RunTransient(attempt.applied), after);
        s := Next(h, s, RunTransient(attempt.applied)).value;
        steps, s := steps + [RunTransient(attempt.applied), after], Next(h, s, after).value;
        if attempt.ended {
          answered := false;
          return;
        }
        redelivered := true;
      }
    }
  }

  // ----- it is a run -----

  /** The loop's steps are a run, and a promised one exactly when it leaves nothing attempted beyond the
      first unacknowledged command. */
  lemma {:induction false} DriveRuns<C, Db>(h: Handler<C, Db>, s: State<C, Db>, script: Script<C>)
    requires Blocked(s)
    ensures var r := Drive(h, s, script);
            && r.state.owner.Nobody? && Follow(h, false, s, r.steps) == Some(r.state)
            && Follow(h, true, s, r.steps) == if Covered(r.state) then Some(r.state) else None
    decreases |script|
  {
    hide Turn, Covered, Reaction;
    if script == [] {
      assert [Step<C>.Crash][1..] == [];
    } else {
      var turn := Turn(h, s, script[0]);
      TurnPromised(h, s, script[0]);
      if !turn.state.owner.Nobody? {
        DriveRuns(h, turn.state, script[1..]);
      }
      var rest := Drive(h, turn.state, script[1..]);
      FollowAppend(h, false, s, turn.steps, rest.steps);
      FollowAppend(h, true, s, turn.steps, rest.steps);
    }
  }

  lemma TurnPromised<C, Db>(h: Handler<C, Db>, s: State<C, Db>, choice: Choice<C>)
    requires Blocked(s)
    ensures Follow(h, true, s, Turn(h, s, choice).steps) == if Promised(Turn(h, s, choice).state) then Some(Turn(h, s, choice).state) else None
  {
    var met := Joined(s, choice.arrivals);
    AppendsFollow(h, true, s, choice.arrivals);
    ReactionFollows(h, met, choice);
    FollowAppend(h, true, s, Appends(choice.arrivals), Reaction(met, choice));
  }

  /** Whatever the script, a tenure is a run of the transition system from the state it found to one nobody
      owns; and the environment keeps its promise exactly when nothing is left attempted beyond the first
      unacknowledged command. */
  lemma TenureIsARun<C, Db>(h: Handler<C, Db>, s: State<C, Db>, script: Script<C>)
    requires s.owner.Nobody?
    ensures var r := Tenure(h, s, script);
            && r.state.owner.Nobody? && Exec(h, false, s, r.steps) == Some(r.state)
            && Exec(h, true, s, r.steps) == if Covered(r.state) then Some(r.state) else None
  {
    hide Covered;
    var r := Tenure(h, s, script);
    DriveRuns(h, Assigned(s), script);
    assert r.steps[1..] == Drive(h, Assigned(s), script).steps;
    FollowIsExec(h, false, s, r.steps);
    FollowIsExec(h, true, s, r.steps);
  }

  lemma {:induction false} ExecOn<C, Db>(h: Handler<C, Db>, s: State<C, Db>, a: seq<Step<C>>, t: State<C, Db>, b: seq<Step<C>>, u: State<C, Db>)
    requires Exec(h, true, s, a) == Some(t) && Exec(h, true, t, b) == Some(u)
    ensures Exec(h, true, s, a + b) == Some(u)
  {
    FollowIsExec(h, true, s, a);
    FollowIsExec(h, true, t, b);
    FollowIsExec(h, true, s, a + b);
    FollowAppend(h, true, s, a, b);
  }

  /** What producers append while nobody owns the partition, and the tenure that follows. */
  datatype Shift<+C> = Shift(arrivals: seq<Entry<C>>, script: Script<C>)

  /** One replica after the other. */
  function Shifts<C, Db>(h: Handler<C, Db>, s: State<C, Db>, shifts: seq<Shift<C>>): State<C, Db>
    requires s.owner.Nobody?
    decreases |shifts|
  {
    if shifts == [] then s
    else
      var found := Joined(s, shifts[0].arrivals);
      TenureIsARun(h, found, shifts[0].script);
      Shifts(h, Tenure(h, found, shifts[0].script).state, shifts[1..])
  }

  /** The environment keeps its promise in every tenure. */
  ghost predicate AllCovered<C, Db>(h: Handler<C, Db>, s: State<C, Db>, shifts: seq<Shift<C>>)
    requires s.owner.Nobody?
    decreases |shifts|
  {
    shifts != [] ==>
      var found := Joined(s, shifts[0].arrivals);
      TenureIsARun(h, found, shifts[0].script);
      var after := Tenure(h, found, shifts[0].script).state;
      Covered(after) && AllCovered(h, after, shifts[1..])
  }

  lemma {:induction false} ShiftsReach<C(!new), Db>(h: Handler<C, Db>, db0: Db, s: State<C, Db>, shifts: seq<Shift<C>>)
    requires Reachable(h, db0, s) && Covered(s) && s.owner.Nobody? && AllCovered(h, s, shifts)
    ensures Reachable(h, db0, Shifts(h, s, shifts)) && Shifts(h, s, shifts).owner.Nobody?
    decreases |shifts|
  {
    hide Covered, Tenure;
    if shifts != [] {
      var found := Joined(s, shifts[0].arrivals);
      var r := Tenure(h, found, shifts[0].script);
      TenureIsARun(h, found, shifts[0].script);
      var before: seq<Step<C>> :| Exec(h, true, Initial(db0), before) == Some(s);
      AppendsFollow(h, true, s, shifts[0].arrivals);
      FollowIsExec(h, true, s, Appends(shifts[0].arrivals));
      ExecOn(h, Initial(db0), before, s, Appends(shifts[0].arrivals), found);
      ExecOn(h, Initial(db0), before + Appends(shifts[0].arrivals), found, r.steps, r.state);
      ShiftsReach(h, db0, r.state, shifts[1..]);
    }
  }

  /** The loop itself, run by one replica after the other in environments that keep the promise: the database
      is the log's first n commands applied once each in order, n covering all that was acknowledged
      or answered, no command but the first unacknowledged one awaits a repetition, and every repeated
      attempt was flagged. */
  lemma OwnersKeepTheDatabase<C(!new), Db(!new)>(h: Handler<C, Db>, db0: Db, shifts: seq<Shift<C>>) returns (flags: seq<bool>)
    requires RedeliveryChangesNothing(h) && AllCovered(h, Initial(db0), shifts)
    ensures var s := Shifts(h, Initial(db0), shifts);
            && s.committed <= |flags| <= |s.log| && s.db == Sequential(h, s.log, flags, db0)
            && (forall o :: s.committed < o < |flags| ==> s.log[o].Malformed?)
            && (forall o :: o in Done(s.history) ==> o < |flags|)
            && RedeliveriesFlagged(s.history) && AcksAfterDone(s.history) && RepliesAfterAnswer(s.history)
  {
    hide AllCovered, Shifts;
    var s := Shifts(h, Initial(db0), shifts);
    assert Exec(h, true, Initial(db0), []) == Some(Initial<C, Db>(db0));
    ShiftsReach(h, db0, Initial(db0), shifts);
    flags := DatabaseIsSequential(h, db0, s);
    var n := RedeliverySound(h, db0, s);
  }

  // ----- scripts that keep the promise -----

  /** No record is fetched after an acknowledgement that failed. */
  ghost predicate Honest<C, Db>(h: Handler<C, Db>, s: State<C, Db>, script: Script<C>)
    requires Blocked(s) || s.owner.Nobody?
    decreases |script|
  {
    Blocked(s) && script != [] ==>
      (Fetches(s, script[0]) ==> s.owner.pos <= s.committed) && Honest(h, Turn(h, s, script[0]).state, script[1..])
  }

  lemma ReactionStaysClose<C, Db>(h: Handler<C, Db>, s: State<C, Db>, choice: Choice<C>)
    requires Blocked(s) && Close(s) && s.committed <= Floor(s) && (Reaction(s, choice) == [Fetch] ==> s.owner.pos <= s.committed)
    ensures var t := Follow(h, false, s, Reaction(s, choice)); t.Some? && Close(t.value) && t.value.committed <= Floor(t.value)
  {
    hide Close;
    ReactionFollows(h, s, choice);
    var steps := Reaction(s, choice);
    if |steps| == 1 {
      FollowOne(h, s, steps[0]);
      assert steps == [steps[0]];
      StepStaysClose(h, s, steps[0], Next(h, s, steps[0]).value);
    } else if |steps| == 2 {
      FollowTwo(h, false, s, steps[0], steps[1]);
      assert steps == [steps[0], steps[1]];
      var mid := Next(h, s, steps[0]).value;
      StepStaysClose(h, s, steps[0], mid);
      StepStaysClose(h, mid, steps[1], Next(h, mid, steps[1]).value);
    }
  }

  lemma {:induction false} HonestStaysClose<C, Db>(h: Handler<C, Db>, s: State<C, Db>, script: Script<C>)
    requires Blocked(s) && Close(s) && s.committed <= Floor(s) && Honest(h, s, script)
    ensures Close(Drive(h, s, script).state)
    decreases |script|
  {
    hide Reaction, Close;
    if script == [] {
      StepStaysClose(h, s, Crash, Next(h, s, Crash).value);
    } else {
      var met := Joined(s, script[0].arrivals);
      JoinedStaysClose(s, script[0].arrivals);
      FetchesIsFetch(s, script[0]);
      ReactionStaysClose(h, met, script[0]);
      var next := Turn(h, s, script[0]).state;
      if !next.owner.Nobody? {
        HonestStaysClose(h, next, script[1..]);
      }
    }
  }

  lemma JoinedStaysClose<C, Db>(s: State<C, Db>, arrivals: seq<Entry<C>>)
    requires Close(s)
    ensures Close(Joined(s, arrivals)) && Floor(Joined(s, arrivals)) == Floor(s)
  {
  }

  lemma FetchesIsFetch<C, Db>(s: State<C, Db>, choice: Choice<C>)
    requires Blocked(s)
    ensures Fetches(s, choice) <==> Reaction(Joined(s, choice.arrivals), choice) == [Fetch]
  {
  }

  /** A script in which every failed acknowledgement is followed by the loss of the partition before the next
      fetch keeps the promise, and leaves at most one offset done and unacknowledged. */
  lemma HonestTenureIsCovered<C, Db>(h: Handler<C, Db>, s: State<C, Db>, script: Script<C>)
    requires s.owner.Nobody? && Close(s) && Honest(h, Assigned(s), script)
    ensures var t := Tenure(h, s, script).state; Covered(t) && Close(t) && forall o :: o in Done(t.history) ==> o <= t.committed
  {
    HonestStaysClose(h, Assigned(s), script);
  }

  // ----- and every run of one owner is such a tenure -----

  /** Some arrivals more, before the first choice. */
  function Delayed<C>(arrivals: seq<Entry<C>>, script: Script<C>): Script<C> {
    if script == [] then [Choice(arrivals, true, false, false, false, false)]
    else [script[0].(arrivals := arrivals + script[0].arrivals)] + script[1..]
  }

  lemma DelayedReaches<C, Db>(h: Handler<C, Db>, s: State<C, Db>, arrivals: seq<Entry<C>>, script: Script<C>)
    requires Blocked(s)
    ensures Blocked(Joined(s, arrivals)) && Drive(h, s, Delayed(arrivals, script)).state == Drive(h, Joined(s, arrivals), script).state
  {
    var met := Joined(s, arrivals);
    if script == [] {
      var choice: Choice<C> := Choice(arrivals, true, false, false, false, false);
      assert Reaction(met, choice) == [Crash];
      assert [Step<C>.Crash][1..] == [];
      assert Turn(h, s, choice).state == Next(h, met, Crash).value;
      assert Drive(h, Turn(h, s, choice).state, []) == Trail([], Turn(h, s, choice).state);
    } else {
      var later := Delayed(arrivals, script);
      assert s.log + (arrivals + script[0].arrivals) == s.log + arrivals + script[0].arrivals;
      assert Joined(s, later[0].arrivals) == Joined(met, script[0].arrivals);
      assert Turn(h, s, later[0]).state == Turn(h, met, script[0]).state;
      assert later[1..] == script[1..];
    }
  }

  /** The appends a run starts with. */
  function Leading<C>(steps: seq<Step<C>>): (n: nat)
    ensures n <= |steps| && (forall i :: 0 <= i < n ==> steps[i].Append?) && (n < |steps| ==> !steps[n].Append?)
  {
    if steps == [] || !steps[0].Append? then 0 else 1 + Leading(steps[1..])
  }

  function Entries<C>(steps: seq<Step<C>>): (arrivals: seq<Entry<C>>)
    requires forall i :: 0 <= i < |steps| ==> steps[i].Append?
    ensures Appends(arrivals) == steps
  {
    var arrivals := seq(|steps|, i requires 0 <= i < |steps| => steps[i].entry);
    assert Appends(arrivals) == steps;
    arrivals
  }

  /** A single owner's run: it holds the partition up to the last step. */
  ghost predicate OneOwner<C, Db>(h: Handler<C, Db>, s: State<C, Db>, steps: seq<Step<C>>)
    decreases |steps|
  {
    if steps == [] then s.owner.Nobody?
    else !s.owner.Nobody? && Next(h, s, steps[0]).Some? && OneOwner(h, Next(h, s, steps[0]).value, steps[1..])
  }

  /** A choice that makes the loop take given steps. */
  lemma TakeTurn<C, Db>(h: Handler<C, Db>, s: State<C, Db>, choice: Choice<C>, t: State<C, Db>, script: Script<C>)
    requires Blocked(s) && Turn(h, s, choice).state == t
    ensures Drive(h, s, [choice] + script).state == Drive(h, t, script).state
  {
    assert ([choice] + script)[1..] == script;
  }

  lemma EntriesSplit<C>(steps: seq<Step<C>>, n: nat)
    requires 0 < n <= |steps| && forall i :: 0 <= i < n ==> steps[i].Append?
    ensures Entries(steps[..n]) == [steps[0].entry] + Entries(steps[1..][..n - 1])
  {
    assert steps[1..][..n - 1] == steps[..n][1..];
  }

  lemma JoinedTwice<C, Db>(s: State<C, Db>, e: Entry<C>, es: seq<Entry<C>>)
    ensures Joined(s.(log := s.log + [e]), es) == Joined(s, [e] + es)
  {
    assert s.log + [e] + es == s.log + ([e] + es);
  }

  lemma JoinedNone<C, Db>(s: State<C, Db>, es: seq<Entry<C>>)
    requires es == []
    ensures Joined(s, es) == s
  {
    assert s.log + es == s.log;
  }

  /** After an attempt, appends and one more step of the loop. */
  lemma {:induction false} AfterAppends<C, Db>(h: Handler<C, Db>, s: State<C, Db>, steps: seq<Step<C>>)
    requires OneOwner(h, s, steps) && !s.owner.Nobody?
    ensures var n := Leading(steps);
            n < |steps| && OneOwner(h, Joined(s, Entries(steps[..n])), steps[n..])
    decreases |steps|
  {
    hide Joined, Entries;
    var n := Leading(steps);
    if n == 0 {
      JoinedNone(s, Entries(steps[..0]));
      assert steps[0..] == steps;
    } else {
      var next := Next(h, s, steps[0]).value;
      AfterAppends(h, next, steps[1..]);
      EntriesSplit(steps, n);
      JoinedTwice(s, steps[0].entry, Entries(steps[1..][..n - 1]));
      assert steps[1..][n - 1..] == steps[n..];
    }
  }

  /** The choice that has the loop attempt the command and go on as `second` says, es arriving meanwhile. */
  function Attempting<C>(first: Step<C>, second: Step<C>, es: seq<Entry<C>>): Choice<C> {
    if first.RunToAnswer? then Choice(es, false, true, true, true, second != Reply(true))
    else Choice(es, false, true, false, first == RunTransient(true), second == Revoke)
  }

  lemma AttemptTurn<C, Db>(h: Handler<C, Db>, s: State<C, Db>, first: Step<C>, es: seq<Entry<C>>, second: Step<C>)
    requires Blocked(s) && s.owner.Executing?
    requires if first.RunToAnswer? then second.Reply? else first.RunTransient? && (second.Retry? || second.Revoke?)
    ensures Next(h, s, first).Some? && Next(h, Joined(Next(h, s, first).value, es), second) == Some(Turn(h, s, Attempting(first, second, es)).state)
  {
    var choice := Attempting(first, second, es);
    var met := Joined(s, es);
    assert Reaction(met, choice) == [first, second];
    FollowTwo(h, false, met, first, second);
    assert Joined(Next(h, s, first).value, es) == Next(h, met, first).value;
  }

  /** Every run of one owner, from a blocking call to the loss of the partition, leads where the loop leads with
      some script: no run of the transition system is missing from the loop. */
  lemma {:induction false} EveryTenureHasAScript<C, Db>(h: Handler<C, Db>, s: State<C, Db>, steps: seq<Step<C>>, t: State<C, Db>) returns (script: Script<C>)
    requires Blocked(s) && OneOwner(h, s, steps) && Follow(h, false, s, steps) == Some(t)
    ensures Drive(h, s, script).state == t
    decreases |steps|, 1
  {
    var next := Next(h, s, steps[0]).value;
    match steps[0]
    case Append(e) =>
      assert next == Joined(s, [e]);
      script := EveryTenureHasAScript(h, next, steps[1..], t);
      DelayedReaches(h, s, [e], script);
      script := Delayed([e], script);
    case Crash => script := EndsHere(h, s, steps, t, []);
    case Revoke => script := EndsHere(h, s, steps, t, [Choice([], false, false, false, false, true)]);
    case CrashWhileRunning(applied) => script := EndsHere(h, s, steps, t, [Choice([], true, true, false, applied, false)]);
    case Fetch => script := GoesOn(h, s, steps, t, Choice([], false, false, true, false, false));
    case Commit(acked) => script := GoesOn(h, s, steps, t, Choice([], false, false, acked, false, false));
    case RunToAnswer => script := AttemptGoesOn(h, s, steps, t);
    case RunTransient(_) => script := AttemptGoesOn(h, s, steps, t);
  }

  lemma OneStepTurn<C, Db>(h: Handler<C, Db>, s: State<C, Db>, choice: Choice<C>, step: Step<C>)
    requires Blocked(s) && choice.arrivals == [] && Reaction(s, choice) == [step] && Next(h, s, step).Some?
    ensures Turn(h, s, choice).state == Next(h, s, step).value
  {
    assert s.log + choice.arrivals == s.log;
    assert Joined(s, choice.arrivals) == s;
    var steps := [step];
    assert steps[1..] == [];
    assert Follow(h, false, s, steps) == Follow(h, false, Next(h, s, step).value, steps[1..]);
  }

  /** The first step is the last, and a script of at most one choice takes it. */
  lemma EndsHere<C, Db>(h: Handler<C, Db>, s: State<C, Db>, steps: seq<Step<C>>, t: State<C, Db>, ending: Script<C>) returns (script: Script<C>)
    requires Blocked(s) && OneOwner(h, s, steps) && Follow(h, false, s, steps) == Some(t) && |ending| <= 1
    requires if ending == [] then steps[0] == Crash else ending[0].arrivals == [] && Reaction(s, ending[0]) == [steps[0]]
    requires Next(h, s, steps[0]).value.owner.Nobody?
    ensures script == ending && Drive(h, s, script).state == t
  {
    script := ending;
    assert steps[1..] == [];
    if ending != [] {
      OneStepTurn(h, s, ending[0], steps[0]);
      assert ending[1..] == [];
    }
  }

  /** The first step is what a choice has the loop do, up to its next blocking call. */
  lemma {:induction false} GoesOn<C, Db>(h: Handler<C, Db>, s: State<C, Db>, steps: seq<Step<C>>, t: State<C, Db>, choice: Choice<C>) returns (script: Script<C>)
    requires Blocked(s) && OneOwner(h, s, steps) && Follow(h, false, s, steps) == Some(t) && steps != []
    requires choice.arrivals == [] && Reaction(s, choice) == [steps[0]] && Blocked(Next(h, s, steps[0]).value)
    ensures Drive(h, s, script).state == t
    decreases |steps|, 0
  {
    var next := Next(h, s, steps[0]).value;
    var rest := EveryTenureHasAScript(h, next, steps[1..], t);
    OneStepTurn(h, s, choice, steps[0]);
    TakeTurn(h, s, choice, next, rest);
    script := [choice] + rest;
  }

  /** The first step is an attempt: appends may follow, and then the loop's next step or its death. */
  lemma {:induction false} AttemptGoesOn<C, Db>(h: Handler<C, Db>, s: State<C, Db>, steps: seq<Step<C>>, t: State<C, Db>) returns (script: Script<C>)
    requires Blocked(s) && s.owner.Executing? && OneOwner(h, s, steps) && Follow(h, false, s, steps) == Some(t)
    requires steps != [] && (steps[0].RunToAnswer? || steps[0].RunTransient?)
    ensures Drive(h, s, script).state == t
    decreases |steps|, 0
  {
    hide Turn, Drive;
    var first, rest := steps[0], steps[1..];
    var es, tail := AttemptThen(h, s, steps, t);
    var dies := tail[0].Crash?;
    var second := if !dies then tail[0] else if first.RunToAnswer? then Reply(false) else Retry;
    AttemptTurn(h, s, first, es, second);
    var choice := Attempting(first, second, es);
    var turned := Turn(h, s, choice).state;
    var onward: Script<C> := [];
    if dies || second.Revoke? {
      EndsAfter(h, turned, t);
    } else {
      onward := EveryTenureHasAScript(h, turned, tail[1..], t);
    }
    TakeTurn(h, s, choice, turned, onward);
    script := [choice] + onward;
  }

  /** What comes after an attempt: appends, and the rest of the run. */
  lemma AttemptThen<C, Db>(h: Handler<C, Db>, s: State<C, Db>, steps: seq<Step<C>>, t: State<C, Db>) returns (es: seq<Entry<C>>, tail: seq<Step<C>>)
    requires Blocked(s) && s.owner.Executing? && OneOwner(h, s, steps) && Follow(h, false, s, steps) == Some(t)
    requires steps != [] && (steps[0].RunToAnswer? || steps[0].RunTransient?)
    ensures 0 < |tail| < |steps| && !tail[0].Append?
    ensures var met := Joined(Next(h, s, steps[0]).value, es); OneOwner(h, met, tail) && Follow(h, false, met, tail) == Some(t)
  {
    var rest, after := steps[1..], Next(h, s, steps[0]).value;
    AfterAppends(h, after, rest);
    var n := Leading(rest);
    es, tail := Entries(rest[..n]), rest[n..];
    AppendsFollow(h, false, after, es);
    FollowAppend(h, false, after, rest[..n], tail);
    assert rest == rest[..n] + tail;
  }

  /** Out of choices, the loop is over or the process dies. */
  lemma EndsAfter<C, Db>(h: Handler<C, Db>, s: State<C, Db>, t: State<C, Db>)
    requires if s.owner.Nobody? then s == t else Blocked(s) && Next(h, s, Crash) == Some(t)
    ensures Drive(h, s, []).state == t
  {
  }
}
