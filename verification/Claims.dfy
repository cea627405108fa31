/** Claiming jobs and timers without row locks: any number of claimers, each with a list of candidates
    that may be out of date, and conditional updates that take one row at a time. */
module Claims {

  import opened Wrappers

  datatype Status = Pending | Locked | Done

  /** A job's row. `round` counts how often it has become pending again. */
  datatype Job = Job(status: Status, lockedUntil: Option<int>, lockedBy: string, round: nat)

  datatype TimerStatus = Armed | Triggered | Deleted

  /** A timer's row. `round` counts how often it has been armed again after it was triggered. */
  datatype Timer = Timer(status: TimerStatus, round: nat)

  /** A claim of jobs or of timers, running or ended: what is left to try and what it has got. */
  datatype Claim =
    | Jobs(worker: string, lockUntil: int, max: nat, candidates: seq<nat>, got: seq<nat>)
    | Timers(candidates: seq<nat>, got: seq<nat>)
    | JobsReturned(max: nat, got: seq<nat>)
    | TimersReturned(got: seq<nat>)
    | JobsAborted
    | TimersAborted(got: seq<nat>)

  /** A job handed to a claim in one of its rounds. */
  datatype Grant = Grant(job: nat, round: nat, claim: nat)

  /** A timer taken in one of its rounds by a claim, as the k-th it took. */
  datatype Firing = Firing(timer: nat, round: nat, claim: nat, k: nat)

  /** The grants, the firings and the marks, timers triggered in a round by others than a claim, are the
      history of the run. */
  datatype State = State(
    jobs: map<nat, Job>,
    timers: map<nat, Timer>,
    claims: map<nat, Claim>,
    grants: seq<Grant>,
    fired: seq<Firing>,
    marks: set<(nat, nat)>)

  /** The steps of claims, and what others do to jobs and timers between them. */
  datatype Step =
    | SelectJobs(claim: nat, worker: string, lockUntil: int, max: nat, candidates: seq<nat>)
    | TryJob(claim: nat, now: int)
    | ReturnJobs(claim: nat)
    | Abort(claim: nat)
    | SelectTimers(claim: nat, candidates: seq<nat>)
    | TryTimer(claim: nat)
    | ReturnTimers(claim: nat)
    | ChangeJob(job: nat, status: Status, lockedUntil: Option<int>)
    | ChangeTimer(timer: nat, to: TimerStatus)

  const Start := State(map[], map[], map[], [], [], {})

  predicate Claimable(s: State, job: nat, now: int) {
    job in s.jobs && s.jobs[job].status.Pending? && (s.jobs[job].lockedUntil.None? || s.jobs[job].lockedUntil.value < now)
  }

  predicate Takeable(s: State, timer: nat) {
    timer in s.timers && s.timers[timer].status.Armed?
  }

  predicate RunningJobs(s: State, c: nat) { c in s.claims && s.claims[c].Jobs? }

  predicate RunningTimers(s: State, c: nat) { c in s.claims && s.claims[c].Timers? }

  predicate Running(s: State, c: nat) { RunningJobs(s, c) || RunningTimers(s, c) }

  /** A claim stops when it has tried all its candidates; one of jobs, also when it has what it asked for. */
  predicate Over(s: State, c: nat)
    requires Running(s, c)
  {
    s.claims[c].candidates == [] || (s.claims[c].Jobs? && |s.claims[c].got| == s.claims[c].max)
  }

  predicate Enabled(s: State, step: Step) {
    match step
    case SelectJobs(c, _, _, max, candidates) => c !in s.claims && |candidates| <= 3 * max
    case TryJob(c, _) => RunningJobs(s, c) && !Over(s, c)
    case ReturnJobs(c) => RunningJobs(s, c) && Over(s, c)
    case Abort(c) => Running(s, c)
    case SelectTimers(c, _) => c !in s.claims
    case TryTimer(c) => RunningTimers(s, c) && !Over(s, c)
    case ReturnTimers(c) => RunningTimers(s, c) && Over(s, c)
    case ChangeJob(_, _, _) => true
    case ChangeTimer(timer, _) => timer in s.timers ==> !s.timers[timer].status.Deleted?
  }

  /** A job's row set by others: becoming pending, from anything else, starts another round. */
  function Changed(s: State, job: nat, status: Status, lockedUntil: Option<int>): Job {
    if job !in s.jobs then Job(status, lockedUntil, "", 0)
    else s.jobs[job].(status := status, lockedUntil := lockedUntil,
                      round := s.jobs[job].round + if status.Pending? && !s.jobs[job].status.Pending? then 1 else 0)
  }

  /** A timer's row set by others: armed after it was triggered, it starts another round. */
  function ChangedTimer(s: State, timer: nat, status: TimerStatus): Timer {
    if timer !in s.timers then Timer(status, 0)
    else Timer(status, s.timers[timer].round + if status.Armed? && s.timers[timer].status.Triggered? then 1 else 0)
  }

  function Next(s: State, step: Step): State
    requires Enabled(s, step)
  {
    match step
    case SelectJobs(c, worker, lockUntil, max, candidates) => s.(claims := s.claims[c := Jobs(worker, lockUntil, max, candidates, [])])
    case TryJob(c, now) =>
      var claim := s.claims[c];
      var job := claim.candidates[0];
      var (worker, until, max, rest) := (claim.worker, claim.lockUntil, claim.max, claim.candidates[1..]);
      // The update and its condition are one atomic step of the database.
      if Claimable(s, job, now) then
        s.(jobs := s.jobs[job := s.jobs[job].(status := Locked, lockedBy := worker, lockedUntil := Some(until))],
           claims := s.claims[c := Jobs(worker, until, max, rest, claim.got + [job])],
           grants := s.grants + [Grant(job, s.jobs[job].round, c)])
      else s.(claims := s.claims[c := Jobs(worker, until, max, rest, claim.got)])
    case ReturnJobs(c) => s.(claims := s.claims[c := JobsReturned(s.claims[c].max, s.claims[c].got)])
    case Abort(c) =>
      // A failed claim of jobs is rolled back with its transaction; one of timers is not.
      var claim := s.claims[c];
      if claim.Jobs? then s.(jobs := RolledBack(s, claim.got), claims := s.claims[c := JobsAborted])
      else s.(claims := s.claims[c := TimersAborted(claim.got)])
    case SelectTimers(c, candidates) => s.(claims := s.claims[c := Timers(candidates, [])])
    case TryTimer(c) =>
      var claim := s.claims[c];
      var timer := claim.candidates[0];
      if Takeable(s, timer) then
        s.(timers := s.timers[timer := s.timers[timer].(status := Triggered)],
           claims := s.claims[c := Timers(claim.candidates[1..], claim.got + [timer])],
           fired := s.fired + [Firing(timer, s.timers[timer].round, c, |claim.got|)])
      else s.(claims := s.claims[c := Timers(claim.candidates[1..], claim.got)])
    case ReturnTimers(c) => s.(claims := s.claims[c := TimersReturned(s.claims[c].got)])
    case ChangeJob(job, status, lockedUntil) => s.(jobs := s.jobs[job := Changed(s, job, status, lockedUntil)])
    case ChangeTimer(timer, status) =>
      var armed := timer !in s.timers || s.timers[timer].status.Armed?;
      s.(timers := s.timers[timer := ChangedTimer(s, timer, status)],
         marks := if status.Triggered? && armed then s.marks + {(timer, ChangedTimer(s, timer, status).round)} else s.marks)
  }

  /** The jobs a claim had taken, pending again. */
  function RolledBack(s: State, got: seq<nat>): map<nat, Job> {
    map job | job in s.jobs :: if job in got then Changed(s, job, Pending, None) else s.jobs[job]
  }

  ghost predicate Runs(s: State, steps: seq<Step>, t: State)
    decreases |steps|
  {
    if steps == [] then s == t else Enabled(s, steps[0]) && Runs(Next(s, steps[0]), steps[1..], t)
  }

  // ----- jobs -----

  /** A job's grants all belong to rounds it has had, and to earlier ones while it is pending. */
  ghost predicate GrantsSpent(s: State) {
    forall i :: 0 <= i < |s.grants| ==>
      var g := s.grants[i];
      g.job in s.jobs && g.round <= s.jobs[g.job].round && (s.jobs[g.job].status.Pending? ==> g.round < s.jobs[g.job].round)
  }

  ghost predicate GrantsDistinct(s: State) {
    forall i, j :: 0 <= i < j < |s.grants| ==> s.grants[i].job != s.grants[j].job || s.grants[i].round != s.grants[j].round
  }

  predicate OfJobs(claim: Claim) { claim.Jobs? || claim.JobsReturned? }

  /** A claim has no more than it asked for, and everything it has was granted to it. */
  ghost predicate ClaimsBacked(s: State) {
    forall c :: c in s.claims && OfJobs(s.claims[c]) ==>
      |s.claims[c].got| <= s.claims[c].max && forall k :: 0 <= k < |s.claims[c].got| ==> Granted(s, s.claims[c].got[k], c)
  }

  ghost predicate Granted(s: State, job: nat, c: nat) {
    exists i :: 0 <= i < |s.grants| && s.grants[i].job == job && s.grants[i].claim == c
  }

  lemma StepKeepsGrants(s: State, step: Step)
    requires Enabled(s, step) && GrantsSpent(s) && GrantsDistinct(s)
    ensures GrantsSpent(Next(s, step)) && GrantsDistinct(Next(s, step))
  {
  }

  lemma StepKeepsBacking(s: State, step: Step)
    requires Enabled(s, step) && ClaimsBacked(s)
    ensures ClaimsBacked(Next(s, step))
  {
    var t := Next(s, step);
    forall c, job | Granted(s, job, c) ensures Granted(t, job, c) {
      var i :| 0 <= i < |s.grants| && s.grants[i].job == job && s.grants[i].claim == c;
      assert t.grants[i] == s.grants[i];
    }
    if step.TryJob? && |t.grants| > |s.grants| {
      var g := t.grants[|s.grants|];
      assert Granted(t, g.job, step.claim);
    }
  }

  lemma {:induction false} RunKeepsGrants(s: State, steps: seq<Step>, t: State)
    requires GrantsSpent(s) && GrantsDistinct(s) && ClaimsBacked(s) && Runs(s, steps, t)
    ensures GrantsSpent(t) && GrantsDistinct(t) && ClaimsBacked(t)
    decreases |steps|
  {
    if steps != [] {
      StepKeepsGrants(s, steps[0]);
      StepKeepsBacking(s, steps[0]);
      RunKeepsGrants(Next(s, steps[0]), steps[1..], t);
    }
  }

  /** In every run, however stale the candidates, a job that is pending goes to one claim: two grants of
      the same job belong to different rounds. No claim gets more than it asked for, nor anything
      that was not granted to it. */
  lemma JobsAreClaimedOnce(steps: seq<Step>, t: State)
    requires Runs(Start, steps, t)
    ensures forall i, j :: 0 <= i < j < |t.grants| && t.grants[i].job == t.grants[j].job ==> t.grants[i].round != t.grants[j].round
    ensures forall c :: c in t.claims && t.claims[c].JobsReturned? ==>
              |t.claims[c].got| <= t.claims[c].max && forall k :: 0 <= k < |t.claims[c].got| ==> Granted(t, t.claims[c].got[k], c)
  {
    RunKeepsGrants(Start, steps, t);
  }

  // ----- timers -----

  predicate OfTimers(claim: Claim) { claim.Timers? || claim.TimersReturned? || claim.TimersAborted? }

  /** What a claim of timers has taken, whatever became of it. */
  function Got(claim: Claim): seq<nat> {
    if OfTimers(claim) then claim.got else []
  }

  /** A timer's rounds are spent one after the other: what fired or was marked lies in a round it has had,
      and an armed timer's current round is unspent. */
  ghost predicate RoundsSpent(s: State) {
    && (forall f :: f in s.fired ==>
          f.timer in s.timers && f.round <= s.timers[f.timer].round && (s.timers[f.timer].status.Armed? ==> f.round < s.timers[f.timer].round))
    && (forall m :: m in s.marks ==>
          m.0 in s.timers && m.1 <= s.timers[m.0].round && (s.timers[m.0].status.Armed? ==> m.1 < s.timers[m.0].round))
    && (forall i, j :: 0 <= i < j < |s.fired| ==> s.fired[i].timer != s.fired[j].timer || s.fired[i].round != s.fired[j].round)
    && (forall f :: f in s.fired ==> (f.timer, f.round) !in s.marks)
  }

  /** A triggered timer was taken by a claim in its current round, or marked by others. */
  ghost predicate TriggeredForAReason(s: State) {
    forall x :: x in s.timers && s.timers[x].status.Triggered? ==> Taken(s, x) || (x, s.timers[x].round) in s.marks
  }

  ghost predicate Taken(s: State, x: nat)
    requires x in s.timers
  {
    exists f :: f in s.fired && f.timer == x && f.round == s.timers[x].round
  }

  /** Claims of timers hold exactly what fired for them. */
  ghost predicate FiringsHeld(s: State) {
    && (forall f :: f in s.fired ==> f.claim in s.claims && f.k < |Got(s.claims[f.claim])| && Got(s.claims[f.claim])[f.k] == f.timer)
    && (forall c, k :: c in s.claims && 0 <= k < |Got(s.claims[c])| ==> Held(s, c, k))
  }

  /** The k-th timer of claim c fired for it. */
  ghost predicate Held(s: State, c: nat, k: nat)
    requires c in s.claims && k < |Got(s.claims[c])|
  {
    exists f :: f in s.fired && f.timer == Got(s.claims[c])[k] && f.claim == c && f.k == k
  }

  lemma TryKeepsRounds(s: State, c: nat)
    requires Enabled(s, TryTimer(c)) && RoundsSpent(s) && TriggeredForAReason(s)
    ensures RoundsSpent(Next(s, TryTimer(c))) && TriggeredForAReason(Next(s, TryTimer(c)))
  {
    var t := Next(s, TryTimer(c));
    assert forall f :: f in s.fired ==> f in t.fired;
    forall x | x in s.timers && Taken(s, x) && t.timers[x].round == s.timers[x].round ensures Taken(t, x) {
      var f :| f in s.fired && f.timer == x && f.round == s.timers[x].round;
      assert f in t.fired;
    }
    if |t.fired| > |s.fired| {
      var f := t.fired[|s.fired|];
      assert f in t.fired;
      assert Taken(t, f.timer);
    }
  }

  lemma StepKeepsRounds(s: State, step: Step)
    requires Enabled(s, step) && RoundsSpent(s) && TriggeredForAReason(s)
    ensures RoundsSpent(Next(s, step)) && TriggeredForAReason(Next(s, step))
  {
    if step.TryTimer? {
      TryKeepsRounds(s, step.claim);
    } else {
      var t := Next(s, step);
      forall x | x in t.timers && t.timers[x].status.Triggered? ensures Taken(t, x) || (x, t.timers[x].round) in t.marks {
        if x in s.timers && s.timers[x].status.Triggered? {
          assert t.timers[x].round == s.timers[x].round;
        }
      }
    }
  }

  lemma StepKeepsHeld(s: State, step: Step)
    requires Enabled(s, step) && FiringsHeld(s)
    ensures FiringsHeld(Next(s, step))
  {
    var t := Next(s, step);
    assert s.fired <= t.fired;
    assert forall f :: f in s.fired ==> f in t.fired;
    forall c, k | c in t.claims && 0 <= k < |Got(t.claims[c])| ensures Held(t, c, k) {
      if c in s.claims && k < |Got(s.claims[c])| {
        assert Held(s, c, k);
      } else {
        var f := t.fired[|s.fired|];
        assert f in t.fired;
      }
    }
  }

  ghost predicate TimersSound(s: State) {
    RoundsSpent(s) && TriggeredForAReason(s) && FiringsHeld(s)
  }

  lemma {:induction false} RunKeepsTimers(s: State, steps: seq<Step>, t: State)
    requires TimersSound(s) && Runs(s, steps, t)
    ensures TimersSound(t)
    decreases |steps|
  {
    hide RoundsSpent, TriggeredForAReason, FiringsHeld, Next, Enabled;
    if steps != [] {
      StepKeepsRounds(s, steps[0]);
      StepKeepsHeld(s, steps[0]);
      RunKeepsTimers(Next(s, steps[0]), steps[1..], t);
    }
  }

  /** Over a whole run, two times a timer is returned, by one claim or by two, belong to different rounds:
      it was armed again in between. */
  lemma TimersFireOncePerRound(steps: seq<Step>, t: State, c: nat, d: nat, k: nat, m: nat) returns (first: nat, second: nat)
    requires Runs(Start, steps, t) && c in t.claims && d in t.claims && t.claims[c].TimersReturned? && t.claims[d].TimersReturned?
    requires k < |t.claims[c].got| && m < |t.claims[d].got| && (c != d || k != m) && t.claims[c].got[k] == t.claims[d].got[m]
    ensures var x := t.claims[c].got[k]; x in t.timers && first <= t.timers[x].round && second <= t.timers[x].round && first != second
    ensures Firing(t.claims[c].got[k], first, c, k) in t.fired && Firing(t.claims[d].got[m], second, d, m) in t.fired
  {
    RunKeepsTimers(Start, steps, t);
    assert Held(t, c, k) && Held(t, d, m);
    var f :| f in t.fired && f.timer == t.claims[c].got[k] && f.claim == c && f.k == k;
    var g :| g in t.fired && g.timer == t.claims[d].got[m] && g.claim == d && g.k == m;
    first, second := f.round, g.round;
  }

  /** So a timer that was never armed again is returned at most once. */
  lemma TimersFireOnce(steps: seq<Step>, t: State, c: nat, d: nat, k: nat, m: nat)
    requires Runs(Start, steps, t) && c in t.claims && d in t.claims && t.claims[c].TimersReturned? && t.claims[d].TimersReturned?
    requires k < |t.claims[c].got| && m < |t.claims[d].got| && (c != d || k != m)
    requires t.claims[c].got[k] in t.timers && t.timers[t.claims[c].got[k]].round == 0
    ensures t.claims[c].got[k] != t.claims[d].got[m]
  {
    if t.claims[c].got[k] == t.claims[d].got[m] {
      var first, second := TimersFireOncePerRound(steps, t, c, d, k, m);
    }
  }

  /** And for any number of rounds there is a run in which a timer armed again that often is returned once
      more than that, each time by another claim. */
  lemma {:induction false} ReturnedInEveryRound(n: nat) returns (steps: seq<Step>, t: State)
    ensures Runs(Start, steps, t) && 1 in t.timers && t.timers[1] == Timer(Triggered, n)
    ensures forall c :: c in t.claims <==> 0 <= c <= n
    ensures forall c :: c in t.claims ==> t.claims[c] == TimersReturned([1])
  {
    if n == 0 {
      steps, t := OnceMore([], Start, 0);
    } else {
      var s: State;
      steps, s := ReturnedInEveryRound(n - 1);
      steps, t := OnceMore(steps, s, n);
    }
  }

  /** A timer armed, anew or again, and returned by one more claim. */
  lemma OnceMore(before: seq<Step>, s: State, c: nat) returns (steps: seq<Step>, t: State)
    requires Runs(Start, before, s) && c !in s.claims && (1 in s.timers ==> s.timers[1].status.Triggered?)
    ensures Runs(Start, steps, t) && 1 in t.timers && t.timers[1] == Timer(Triggered, if 1 in s.timers then s.timers[1].round + 1 else 0)
    ensures t.claims == s.claims[c := TimersReturned([1])]
  {
    hide Runs;
    steps, t := Onward(before, s, ChangeTimer(1, Armed));
    steps, t := Onward(steps, t, SelectTimers(c, [1]));
    steps, t := Onward(steps, t, TryTimer(c));
    assert t.claims[c] == Timers([], [1]);
    steps, t := Onward(steps, t, ReturnTimers(c));
  }

  lemma Onward(steps: seq<Step>, s: State, step: Step) returns (longer: seq<Step>, t: State)
    requires Runs(Start, steps, s) && Enabled(s, step)
    ensures Runs(Start, longer, t) && t == Next(s, step)
  {
    longer, t := steps + [step], Next(s, step);
    RunsThen(Start, steps, s, step);
  }

  // ----- lost timers -----

  /** Triggered in its current round by a claim that returned nothing: nobody will fire it. */
  ghost predicate Lost(s: State, x: nat) {
    x in s.timers && s.timers[x].status.Triggered? &&
    exists f :: f in s.fired && f.timer == x && f.round == s.timers[x].round && f.claim in s.claims && s.claims[f.claim].TimersAborted?
  }

  /** The k-th timer an aborted claim had taken has been armed again or deleted since. */
  ghost predicate Recovered(s: State, c: nat, k: nat)
    requires c in s.claims && k < |Got(s.claims[c])|
  {
    var x := Got(s.claims[c])[k];
    x in s.timers && forall f :: f in s.fired && f.claim == c && f.k == k ==> !s.timers[x].status.Triggered? || f.round < s.timers[x].round
  }

  /** Every triggered timer is accounted for: others marked it, or one claim took it in its current round and
      has it, running, returned or aborted. */
  lemma TimersAccountedFor(steps: seq<Step>, t: State, x: nat) returns (f: Option<Firing>)
    requires Runs(Start, steps, t) && x in t.timers && t.timers[x].status.Triggered?
    ensures f.None? <==> (x, t.timers[x].round) in t.marks
    ensures f.Some? ==> f.value in t.fired && f.value.timer == x && f.value.round == t.timers[x].round
                        && f.value.claim in t.claims && f.value.k < |Got(t.claims[f.value.claim])| && Got(t.claims[f.value.claim])[f.value.k] == x
    ensures f.Some? ==> forall g :: g in t.fired && g.timer == x && g.round == t.timers[x].round ==> g == f.value
  {
    RunKeepsTimers(Start, steps, t);
    if (x, t.timers[x].round) in t.marks {
      f := None;
    } else {
      assert Taken(t, x);
      var g :| g in t.fired && g.timer == x && g.round == t.timers[x].round;
      f := Some(g);
    }
  }

  /** In every run, no timer is lost exactly when every timer an aborted claim had taken was armed again or
      deleted since. */
  lemma TimersLostExactly(steps: seq<Step>, t: State)
    requires Runs(Start, steps, t)
    ensures (forall x :: !Lost(t, x)) <==>
            forall c, k :: c in t.claims && t.claims[c].TimersAborted? && 0 <= k < |Got(t.claims[c])| ==> Recovered(t, c, k)
  {
    RunKeepsTimers(Start, steps, t);
    if forall x :: !Lost(t, x) {
      forall c, k | c in t.claims && t.claims[c].TimersAborted? && 0 <= k < |Got(t.claims[c])| ensures Recovered(t, c, k) {
        assert Held(t, c, k);
        assert !Lost(t, Got(t.claims[c])[k]);
      }
    }
    if x :| Lost(t, x) {
      var f :| f in t.fired && f.timer == x && f.round == t.timers[x].round && f.claim in t.claims && t.claims[f.claim].TimersAborted?;
      assert !Recovered(t, f.claim, f.k);
    }
  }

  /** Where no timer was ever armed again or deleted, exactly when no claim was aborted after taking one. */
  lemma TimersLostByAbortOnly(steps: seq<Step>, t: State)
    requires Runs(Start, steps, t) && forall x :: x in t.timers ==> t.timers[x].round == 0 && !t.timers[x].status.Deleted?
    ensures (forall x :: !Lost(t, x)) <==> forall c :: c in t.claims && t.claims[c].TimersAborted? ==> t.claims[c].got == []
  {
    TimersLostExactly(steps, t);
    RunKeepsTimers(Start, steps, t);
    forall c | c in t.claims && t.claims[c].TimersAborted? && t.claims[c].got != [] ensures !Recovered(t, c, 0) {
      assert Held(t, c, 0);
      var f :| f in t.fired && f.timer == Got(t.claims[c])[0] && f.claim == c && f.k == 0;
    }
  }

  /** The step that loses timers: a claim of timers failing half way loses exactly those it took whose round
      is still the one it took them in. */
  lemma AbortLoses(steps: seq<Step>, s: State, c: nat, x: nat)
    requires Runs(Start, steps, s) && RunningTimers(s, c)
    ensures Lost(Next(s, Abort(c)), x) <==>
            Lost(s, x) || (x in s.timers && s.timers[x].status.Triggered? && exists f :: f in s.fired && f.claim == c && f.timer == x && f.round == s.timers[x].round)
  {
    RunKeepsTimers(Start, steps, s);
    var t := Next(s, Abort(c));
    if Lost(s, x) {
      var f :| f in s.fired && f.timer == x && f.round == s.timers[x].round && f.claim in s.claims && s.claims[f.claim].TimersAborted?;
      assert f in t.fired && t.claims[f.claim].TimersAborted?;
    }
    if x in s.timers && s.timers[x].status.Triggered? && exists f :: f in s.fired && f.claim == c && f.timer == x && f.round == s.timers[x].round {
      var f :| f in s.fired && f.claim == c && f.timer == x && f.round == s.timers[x].round;
      assert f in t.fired && t.claims[f.claim].TimersAborted?;
    }
  }

  /** A run in which one is lost. */
  lemma TimersCanBeLost() returns (steps: seq<Step>, t: State)
    ensures Runs(Start, steps, t) && Lost(t, 1)
  {
    steps, t := [], Start;
    steps, t := Onward(steps, t, ChangeTimer(1, Armed));
    steps, t := Onward(steps, t, SelectTimers(7, [1, 2]));
    steps, t := Onward(steps, t, TryTimer(7));
    steps, t := Onward(steps, t, Abort(7));
    assert Firing(1, 0, 7, 0) in t.fired;
  }

  // ----- the loops -----

  lemma {:induction false} RunsAppend(s: State, a: seq<Step>, t: State, b: seq<Step>, u: State)
    requires Runs(s, a, t) && Runs(t, b, u)
    ensures Runs(s, a + b, u)
    decreases |a|
  {
    if a == [] {
      assert a + b == b;
    } else {
      assert (a + b)[1..] == a[1..] + b;
      RunsAppend(Next(s, a[0]), a[1..], t, b, u);
    }
  }

  lemma RunsThen(s: State, a: seq<Step>, t: State, step: Step)
    requires Runs(s, a, t) && Enabled(t, step)
    ensures Runs(s, a + [step], Next(t, step))
  {
    assert [step][1..] == [];
    RunsAppend(s, a, t, [step], Next(t, step));
  }

  /** Not a step of the claim c. */
  predicate Others(c: nat, step: Step) {
    match step
    case ChangeJob(_, _, _) => true
    case ChangeTimer(_, _) => true
    case _ => step.claim != c
  }

  /** Some steps and the state they lead to. */
  datatype Trail = Trail(steps: seq<Step>, state: State)

  function Then(a: Trail, b: Trail): Trail { Trail(a.steps + b.steps, b.state) }

  function One(s: State, step: Step): Trail
    requires Enabled(s, step)
  {
    Trail([step], Next(s, step))
  }

  /** What others do of what they wish to, each wish in turn if it can be had. */
  function OfOthers(s: State, c: nat, wishes: seq<Step>): (r: Trail)
    ensures c in s.claims ==> c in r.state.claims && r.state.claims[c] == s.claims[c]
    ensures Runs(s, r.steps, r.state) && forall step :: step in r.steps ==> Others(c, step)
    decreases |wishes|
  {
    if wishes == [] then Trail([], s)
    else if Enabled(s, wishes[0]) && Others(c, wishes[0]) then
      var rest := OfOthers(Next(s, wishes[0]), c, wishes[1..]);
      assert ([wishes[0]] + rest.steps)[1..] == rest.steps;
      Then(One(s, wishes[0]), rest)
    else OfOthers(s, c, wishes[1..])
  }

  function First(script: seq<seq<Step>>): seq<Step> { if script == [] then [] else script[0] }
  function Rest(script: seq<seq<Step>>): seq<seq<Step>> { if script == [] then [] else script[1..] }

  /** The update a running claim tries next, and how it returns. */
  function Try(s: State, c: nat, now: int): Step
    requires Running(s, c)
  {
    if s.claims[c].Jobs? then TryJob(c, now) else TryTimer(c)
  }

  function Return(s: State, c: nat): Step
    requires Running(s, c)
  {
    if s.claims[c].Jobs? then ReturnJobs(c) else ReturnTimers(c)
  }

  /** Whether that update finds its row as it needs it. */
  predicate Succeeds(s: State, c: nat, now: int)
    requires Running(s, c) && !Over(s, c)
  {
    if s.claims[c].Jobs? then Claimable(s, s.claims[c].candidates[0], now) else Takeable(s, s.claims[c].candidates[0])
  }

  /** A running claim from here to its return: before each try, others act as the script has it. */
  function Turns(s: State, c: nat, now: int, script: seq<seq<Step>>): Trail
    requires Running(s, c)
    decreases |s.claims[c].candidates|
  {
    if Over(s, c) then One(s, Return(s, c))
    else
      var met := OfOthers(s, c, First(script));
      var tried := Then(met, One(met.state, Try(s, c, now)));
      Then(tried, Turns(tried.state, c, now, Rest(script)))
  }

  /** For each try, whether it succeeded. */
  function Tries(s: State, c: nat, now: int, script: seq<seq<Step>>): (tries: seq<bool>)
    requires Running(s, c)
    ensures |tries| <= |s.claims[c].candidates|
    decreases |s.claims[c].candidates|
  {
    if Over(s, c) then []
    else
      var met := OfOthers(s, c, First(script)).state;
      [Succeeds(met, c, now)] + Tries(Next(met, Try(s, c, now)), c, now, Rest(script))
  }

  /** The candidates whose try succeeded. */
  function Picked(candidates: seq<nat>, tries: seq<bool>): seq<nat>
    requires |tries| <= |candidates|
  {
    if tries == [] then [] else (if tries[0] then [candidates[0]] else []) + Picked(candidates[1..], tries[1..])
  }

  /** The steps a claim itself takes. */
  function OwnSteps(c: nat, steps: seq<Step>): seq<Step> {
    if steps == [] then [] else (if Others(c, steps[0]) then [] else [steps[0]]) + OwnSteps(c, steps[1..])
  }

  lemma {:induction false} OwnStepsAppend(c: nat, a: seq<Step>, b: seq<Step>)
    ensures OwnSteps(c, a + b) == OwnSteps(c, a) + OwnSteps(c, b)
    decreases |a|
  {
    if a == [] {
      assert a + b == b;
    } else {
      assert (a + b)[1..] == a[1..] + b;
      OwnStepsAppend(c, a[1..], b);
    }
  }

  lemma {:induction false} NoneOwn(c: nat, steps: seq<Step>)
    requires forall step :: step in steps ==> Others(c, step)
    ensures OwnSteps(c, steps) == []
    decreases |steps|
  {
    if steps != [] {
      NoneOwn(c, steps[1..]);
    }
  }

  function Repeat(step: Step, n: nat): seq<Step> {
    if n == 0 then [] else [step] + Repeat(step, n - 1)
  }

  lemma {:induction false} TurnsRun(s: State, c: nat, now: int, script: seq<seq<Step>>)
    requires Running(s, c)
    ensures var r := Turns(s, c, now, script);
            Runs(s, r.steps, r.state) && OwnSteps(c, r.steps) == Repeat(Try(s, c, now), |Tries(s, c, now, script)|) + [Return(s, c)]
    decreases |s.claims[c].candidates|
  {
    hide Next, OfOthers, Runs, OwnSteps;
    if Over(s, c) {
      LastTurn(s, c);
    } else {
      var met := OfOthers(s, c, First(script));
      TryMoves(met.state, c, now);
      var next := Next(met.state, Try(s, c, now));
      TurnsRun(next, c, now, Rest(script));
      TurnTaken(s, c, met, Try(s, c, now), Turns(next, c, now, Rest(script)));
    }
  }

  lemma LastTurn(s: State, c: nat)
    requires Running(s, c) && Over(s, c)
    ensures Runs(s, [Return(s, c)], Next(s, Return(s, c))) && OwnSteps(c, [Return(s, c)]) == [Return(s, c)]
  {
    assert [Return(s, c)][1..] == [];
  }

  /** Others' steps, one of the claim's own and what comes after. */
  lemma TurnTaken(s: State, c: nat, met: Trail, own: Step, rest: Trail)
    requires Runs(s, met.steps, met.state) && (forall step :: step in met.steps ==> Others(c, step)) && !Others(c, own)
    requires Enabled(met.state, own) && Runs(Next(met.state, own), rest.steps, rest.state)
    ensures Runs(s, met.steps + [own] + rest.steps, rest.state)
    ensures OwnSteps(c, met.steps + [own] + rest.steps) == [own] + OwnSteps(c, rest.steps)
  {
    hide Next, Enabled;
    RunsThen(s, met.steps, met.state, own);
    RunsAppend(s, met.steps + [own], Next(met.state, own), rest.steps, rest.state);
    NoneOwn(c, met.steps);
    OwnStepsAppend(c, met.steps, [own]);
    OwnStepsAppend(c, met.steps + [own], rest.steps);
    assert [own][1..] == [];
  }

  /** A claim that goes on with its other candidates, and with one more thing taken or not. */
  function Moved(claim: Claim, took: bool): Claim
    requires (claim.Jobs? || claim.Timers?) && claim.candidates != []
  {
    var got := if took then claim.got + [claim.candidates[0]] else claim.got;
    if claim.Jobs? then Jobs(claim.worker, claim.lockUntil, claim.max, claim.candidates[1..], got) else Timers(claim.candidates[1..], got)
  }

  /** A try moves to the next candidate, and takes this one if its row is as it needs it. */
  lemma TryMoves(s: State, c: nat, now: int)
    requires Running(s, c) && !Over(s, c)
    ensures var next := Next(s, Try(s, c, now)); c in next.claims && next.claims[c] == Moved(s.claims[c], Succeeds(s, c, now))
  {
  }

  /** What a claim that ends now returns. */
  function Returned(claim: Claim, got: seq<nat>): Claim
    requires claim.Jobs? || claim.Timers?
  {
    if claim.Jobs? then JobsReturned(claim.max, got) else TimersReturned(got)
  }

  lemma {:induction false} TurnsGet(s: State, c: nat, now: int, script: seq<seq<Step>>)
    requires Running(s, c) && (s.claims[c].Jobs? ==> |s.claims[c].got| <= s.claims[c].max)
    ensures var claim, r, tries := s.claims[c], Turns(s, c, now, script), Tries(s, c, now, script);
            var got := claim.got + Picked(claim.candidates, tries);
            && c in r.state.claims && r.state.claims[c] == Returned(claim, got)
            && (claim.Jobs? ==> |got| <= claim.max)
            && (|tries| == |claim.candidates| || (claim.Jobs? && |got| == claim.max))
    decreases |s.claims[c].candidates|
  {
    hide OfOthers;
    var claim := s.claims[c];
    if Over(s, c) {
      assert claim.got + [] == claim.got;
    } else {
      var met := OfOthers(s, c, First(script)).state;
      TryMoves(met, c, now);
      TurnsGet(Next(met, Try(s, c, now)), c, now, Rest(script));
      PickedFirst(claim.got, claim.candidates, Succeeds(met, c, now), Tries(Next(met, Try(s, c, now)), c, now, Rest(script)));
    }
  }

  lemma PickedFirst(got: seq<nat>, candidates: seq<nat>, first: bool, tries: seq<bool>)
    requires candidates != [] && |tries| < |candidates|
    ensures got + Picked(candidates, [first] + tries) == (if first then got + [candidates[0]] else got) + Picked(candidates[1..], tries)
  {
    assert ([first] + tries)[1..] == tries;
    var rest := Picked(candidates[1..], tries);
    if first {
      assert Picked(candidates, [first] + tries) == [candidates[0]] + rest;
      Regroup(got, [candidates[0]], rest);
    } else {
      assert Picked(candidates, [first] + tries) == rest;
    }
  }

  lemma Regroup(a: seq<nat>, b: seq<nat>, c: seq<nat>)
    ensures a + (b + c) == (a + b) + c
  {
  }

  /** The whole of a claim: its candidates are selected, and then it takes its turns. */
  function Whole(s: State, select: Step, now: int, script: seq<seq<Step>>): Trail
    requires (select.SelectJobs? || select.SelectTimers?) && Enabled(s, select)
  {
    var begun := One(s, select);
    Then(begun, Turns(begun.state, select.claim, now, script))
  }

  /** A claim, whatever others do meanwhile, is a run in which it tries its candidates one after the other, in
      order, until it has what it asked for or none is left, and returns exactly those whose try
      succeeded. */
  lemma WholeMeans(s: State, select: Step, now: int, script: seq<seq<Step>>) returns (tries: seq<bool>)
    requires (select.SelectJobs? || select.SelectTimers?) && Enabled(s, select)
    ensures tries == Tries(Next(s, select), select.claim, now, script) && |tries| <= |select.candidates|
    ensures var c, r, got := select.claim, Whole(s, select, now, script), Picked(select.candidates, tries);
            && Runs(s, r.steps, r.state)
            && OwnSteps(c, r.steps) == [select] + (Repeat(if select.SelectJobs? then TryJob(c, now) else TryTimer(c), |tries|)
                                                   + [if select.SelectJobs? then ReturnJobs(c) else ReturnTimers(c)])
            && c in r.state.claims
            && r.state.claims[c] == (if select.SelectJobs? then JobsReturned(select.max, got) else TimersReturned(got))
            && (select.SelectJobs? ==> |got| <= select.max)
            && (|tries| == |select.candidates| || (select.SelectJobs? && |got| == select.max))
  {
    hide Turns, Tries, OfOthers, Runs, OwnSteps;
    var c, begun := select.claim, Next(s, select);
    TurnsRun(begun, c, now, script);
    TurnsGet(begun, c, now, script);
    tries := Tries(begun, c, now, script);
    NothingYet(s);
    var rest := Turns(begun, c, now, script);
    TurnTaken(s, c, Trail([], s), select, rest);
    assert [] + [select] + rest.steps == [select] + rest.steps;
    assert [] + Picked(select.candidates, tries) == Picked(select.candidates, tries);
  }

  lemma NothingYet(s: State)
    ensures Runs(s, [], s)
  {
  }

  /** One turn of the loop, after what has been done. */
  lemma TurnsNext(done: Trail, c: nat, now: int, script: seq<seq<Step>>)
    requires Running(done.state, c)
    ensures Over(done.state, c) ==>
              Then(done, Turns(done.state, c, now, script)) == Trail(done.steps + [Return(done.state, c)], Next(done.state, Return(done.state, c)))
    ensures !Over(done.state, c) ==>
              var met, own := OfOthers(done.state, c, First(script)), Try(done.state, c, now);
              Then(done, Turns(done.state, c, now, script))
                == Then(Trail(done.steps + met.steps + [own], Next(met.state, own)), Turns(Next(met.state, own), c, now, Rest(script)))
  {
    hide OfOthers;
    if !Over(done.state, c) {
      var met, own := OfOthers(done.state, c, First(script)), Try(done.state, c, now);
      ThenAssociates(done, met, One(met.state, own), Turns(Next(met.state, own), c, now, Rest(script)));
    }
  }

  /** The loop over the candidates for jobs, others acting before each update as the script has it. */
  method ClaimJobs(start: State, c: nat, worker: string, lockUntil: int, max: nat, candidates: seq<nat>, now: int, script: seq<seq<Step>>)
    returns (jobs: seq<nat>, steps: seq<Step>, s: State)
    requires c !in start.claims && |candidates| <= 3 * max
    ensures Trail(steps, s) == Whole(start, SelectJobs(c, worker, lockUntil, max, candidates), now, script)
    ensures Runs(start, steps, s) && c in s.claims && s.claims[c] == JobsReturned(max, jobs)
    ensures jobs == Picked(candidates, Tries(Next(start, SelectJobs(c, worker, lockUntil, max, candidates)), c, now, script))
  {
    hide Turns, OfOthers;
    ghost var whole := Whole(start, SelectJobs(c, worker, lockUntil, max, candidates), now, script);
    s, steps, jobs := Next(start, SelectJobs(c, worker, lockUntil, max, candidates)), [SelectJobs(c, worker, lockUntil, max, candidates)], [];
    var left := script;
    var i := 0;
    while i < |candidates| && |jobs| != max
      invariant i <= |candidates|
      invariant c in s.claims && s.claims[c] == Jobs(worker, lockUntil, max, candidates[i..], jobs)
      invariant Then(Trail(steps, s), Turns(s, c, now, left)) == whole
      decreases |candidates| - i
    {
      TurnsNext(Trail(steps, s), c, now, left);
      var met := OfOthers(s, c, First(left));
      TryMoves(met.state, c, now);
      if Claimable(met.state, candidates[i], now) {
        jobs := jobs + [candidates[i]];
      }
      s, steps, left := Next(met.state, TryJob(c, now)), steps + met.steps + [TryJob(c, now)], Rest(left);
      i := i + 1;
    }
    TurnsNext(Trail(steps, s), c, now, left);
    s, steps := Next(s, ReturnJobs(c)), steps + [ReturnJobs(c)];
    ghost var tries := WholeMeans(start, SelectJobs(c, worker, lockUntil, max, candidates), now, script);
  }

  /** The same for timers, where every candidate is tried. */
  method ClaimTimers(start: State, c: nat, candidates: seq<nat>, script: seq<seq<Step>>) returns (timers: seq<nat>, steps: seq<Step>, s: State)
    requires c !in start.claims
    ensures Trail(steps, s) == Whole(start, SelectTimers(c, candidates), 0, script)
    ensures Runs(start, steps, s) && c in s.claims && s.claims[c] == TimersReturned(timers)
    ensures timers == Picked(candidates, Tries(Next(start, SelectTimers(c, candidates)), c, 0, script))
  {
    hide Turns, OfOthers;
    ghost var whole := Whole(start, SelectTimers(c, candidates), 0, script);
    s, steps, timers := Next(start, SelectTimers(c, candidates)), [SelectTimers(c, candidates)], [];
    var left := script;
    for i := 0 to |candidates|
      invariant c in s.claims && s.claims[c] == Timers(candidates[i..], timers)
      invariant Then(Trail(steps, s), Turns(s, c, 0, left)) == whole
    {
      TurnsNext(Trail(steps, s), c, 0, left);
      var met := OfOthers(s, c, First(left));
      TryMoves(met.state, c, 0);
      if Takeable(met.state, candidates[i]) {
        timers := timers + [candidates[i]];
      }
      s, steps, left := Next(met.state, TryTimer(c)), steps + met.steps + [TryTimer(c)], Rest(left);
    }
    TurnsNext(Trail(steps, s), c, 0, left);
    s, steps := Next(s, ReturnTimers(c)), steps + [ReturnTimers(c)];
    ghost var tries := WholeMeans(start, SelectTimers(c, candidates), 0, script);
  }

  lemma ThenAssociates(a: Trail, b: Trail, c: Trail, d: Trail)
    ensures Then(a, Then(Then(b, c), d)) == Then(Trail(a.steps + b.steps + c.steps, c.state), d)
  {
    RegroupSteps(a.steps, b.steps, c.steps, d.steps);
  }

  lemma RegroupSteps(a: seq<Step>, b: seq<Step>, c: seq<Step>, d: seq<Step>)
    ensures a + (b + c + d) == a + b + c + d
  {
  }
}
