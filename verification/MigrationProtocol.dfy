/** Any number of migration runners against one database, interleaved statement by statement,
    any of which may crash and drop its session at any moment.  The advisory lock is the only
    thing that keeps them apart. */
module MigrationProtocol {
  import opened Prelude
  import opened MigrationRunner

  /** Where a runner stands.  `start` is the database at the moment it read the bookkeeping
      table; the runner itself uses only `start.rows`.  `count` is its applied counter. */
  datatype Pc<+D> =
    | Polling
    | Holding
    | Deciding(next: nat, start: Database<D>, count: nat)
    | InTransaction(next: nat, start: Database<D>, count: nat, work: D, done: nat, applied: nat, skipped: nat)
    | Releasing(start: Database<D>, outcome: Outcome)
    | Finished(ok: bool)
    | Crashed

  datatype Runner<+D, +S> = Runner(migrations: seq<Migration<S>>, pc: Pc<D>)

  /** `commits` lists the migrations committed so far, in order; `overwrites` counts how often
      the bookkeeping insert met an existing row and took its update arm. */
  datatype World<+D, +S> = World(
    db: Database<D>, lock: Option<nat>, runners: map<nat, Runner<D, S>>,
    commits: seq<string>, overwrites: nat)

  datatype Event<+S> =
    | Join(runner: nat, migrations: seq<Migration<S>>)
    | Poll(runner: nat)
    | GiveUp(runner: nat)
    | Read(runner: nat)
    | Decide(runner: nat)
    | Execute(runner: nat)
    | Commit(runner: nat)
    | Unlock(runner: nat)
    | Crash(runner: nat)

  function Initial<D, S>(db: Database<D>): World<D, S> {
    World(db, None, map[], [], 0)
  }

  predicate Critical<D>(pc: Pc<D>) {
    pc.Holding? || pc.Deciding? || pc.InTransaction? || pc.Releasing?
  }

  // ----- steps

  function Move<D, S>(w: World<D, S>, r: nat, pc: Pc<D>): World<D, S>
    requires r in w.runners
  {
    w.(runners := w.runners[r := w.runners[r].(pc := pc)])
  }

  /** The decision for the next migration: done, skip, refuse, or open a transaction. */
  function AfterDecision<D, S>(db: Database<D>, migrations: seq<Migration<S>>, pc: Pc<D>): Pc<D>
    requires pc.Deciding?
  {
    if pc.next >= |migrations| then Releasing(pc.start, Completed(pc.count))
    else
      var m := migrations[pc.next];
      if m.name in pc.start.rows then
        if pc.start.rows[m.name].checksum == m.checksum then Deciding(pc.next + 1, pc.start, pc.count)
        else Releasing(pc.start, Edited(pc.next))
      else if m.statements == [] then Releasing(pc.start, Broke(pc.next))
      else InTransaction(pc.next, pc.start, pc.count, db.schema, 0, 0, 0)
  }

  /** One statement under its savepoint; a real error rolls the transaction back. */
  function AfterStatement<D, S>(engine: Engine<D, S>, statement: S, pc: Pc<D>): Pc<D>
    requires pc.InTransaction?
  {
    match engine(pc.work, statement)
    case Done(d) => pc.(work := d, done := pc.done + 1, applied := pc.applied + 1)
    case AlreadyExists => pc.(done := pc.done + 1, skipped := pc.skipped + 1)
    case Failed => Releasing(pc.start, Broke(pc.next))
  }

  function CommitTransaction<D, S>(w: World<D, S>, r: nat): World<D, S>
    requires r in w.runners && w.runners[r].pc.InTransaction? && w.runners[r].pc.next < |w.runners[r].migrations|
  {
    var pc := w.runners[r].pc;
    var m := w.runners[r].migrations[pc.next];
    var row := Row(m.checksum, |m.statements|, pc.applied, pc.skipped);
    Move(w, r, Deciding(pc.next + 1, pc.start, pc.count + 1)).(
      db := Database(pc.work, w.db.rows[m.name := row]),
      commits := w.commits + [m.name],
      overwrites := w.overwrites + if m.name in w.db.rows then 1 else 0)
  }

  function Released<D, S>(w: World<D, S>, r: nat): Option<nat> {
    if w.lock == Some(r) then None else w.lock
  }

  ghost predicate Enabled<D, S>(w: World<D, S>, e: Event<S>) {
    if e.Join? then e.runner !in w.runners && DistinctNames(e.migrations)
    else
      && e.runner in w.runners
      && var x := w.runners[e.runner];
         match e
         case Poll(_) => x.pc.Polling?
         case GiveUp(_) => x.pc.Polling?
         case Read(_) => x.pc.Holding?
         case Decide(_) => x.pc.Deciding?
         case Execute(_) =>
           x.pc.InTransaction? && x.pc.next < |x.migrations| && x.pc.done < |x.migrations[x.pc.next].statements|
         case Commit(_) =>
           x.pc.InTransaction? && x.pc.next < |x.migrations| && x.pc.done == |x.migrations[x.pc.next].statements|
         case Unlock(_) => x.pc.Releasing?
         case Crash(_) => !x.pc.Finished?
         case Join(_, _) => false
  }

  ghost function Step<D, S>(engine: Engine<D, S>, w: World<D, S>, e: Event<S>): World<D, S>
    requires Enabled(w, e)
  {
    var r := e.runner;
    match e
    case Join(_, migrations) => w.(runners := w.runners[r := Runner(migrations, Polling)])
    case Poll(_) => if w.lock.None? then Move(w, r, Holding).(lock := Some(r)) else w
    case GiveUp(_) => Move(w, r, Finished(false))
    case Read(_) => Move(w, r, Deciding(0, w.db, 0))
    case Decide(_) => Move(w, r, AfterDecision(w.db, w.runners[r].migrations, w.runners[r].pc))
    case Execute(_) =>
      var pc := w.runners[r].pc;
      Move(w, r, AfterStatement(engine, w.runners[r].migrations[pc.next].statements[pc.done], pc))
    case Commit(_) => CommitTransaction(w, r)
    case Unlock(_) => Move(w, r, Finished(w.runners[r].pc.outcome.Completed?)).(lock := Released(w, r))
    case Crash(_) => Move(w, r, Crashed).(lock := Released(w, r))
  }

  /** Events that are not enabled do not happen. */
  ghost function RunEvents<D, S>(engine: Engine<D, S>, w: World<D, S>, events: seq<Event<S>>): World<D, S> {
    if events == [] then w
    else
      var v := RunEvents(engine, w, events[..|events| - 1]);
      var e := events[|events| - 1];
      if Enabled(v, e) then Step(engine, v, e) else v
  }

  // ----- invariant

  /** The first n migrations are recorded as they stand on disk. */
  ghost predicate RecordedUpTo<D, S>(db: Database<D>, migrations: seq<Migration<S>>, n: nat) {
    n <= |migrations| && forall j :: 0 <= j < n ==>
      migrations[j].name in db.rows && db.rows[migrations[j].name].checksum == migrations[j].checksum
  }

  /** What the runner still has to do completes the run it began at `start`. */
  ghost predicate Continues<D, S>(engine: Engine<D, S>, db: Database<D>, migrations: seq<Migration<S>>,
                                  start: Database<D>, next: nat, count: nat) {
    && Current(db, start.rows, migrations, next)
    && RecordedUpTo(db, migrations, next)
    && RunFrom(engine, db, start.rows, migrations, next, count) == Run(engine, start, migrations)
  }

  ghost predicate PcInv<D, S>(engine: Engine<D, S>, db: Database<D>, migrations: seq<Migration<S>>, pc: Pc<D>) {
    match pc
    case Polling => true
    case Holding => true
    case Crashed => true
    case Finished(ok) => ok ==> RecordedUpTo(db, migrations, |migrations|)
    case Releasing(start, outcome) =>
      && RunResult(db, outcome) == Run(engine, start, migrations)
      && (outcome.Completed? ==> RecordedUpTo(db, migrations, |migrations|))
    case Deciding(next, start, count) => Continues(engine, db, migrations, start, next, count)
    case InTransaction(next, start, count, work, done, applied, skipped) =>
      && Continues(engine, db, migrations, start, next, count)
      && next < |migrations| && migrations[next].name !in start.rows
      && 0 < |migrations[next].statements| && done <= |migrations[next].statements|
      && ApplyAll(engine, db.schema, migrations[next].statements[..done]) == AppliedAll(work, applied, skipped)
  }

  /** A runner is between lock and unlock exactly when it owns the lock. */
  ghost predicate RunnerInv<D, S>(engine: Engine<D, S>, w: World<D, S>, r: nat)
    requires r in w.runners
  {
    && (Critical(w.runners[r].pc) <==> w.lock == Some(r))
    && DistinctNames(w.runners[r].migrations)
    && PcInv(engine, w.db, w.runners[r].migrations, w.runners[r].pc)
  }

  /** The committed rows are the initial ones, untouched, plus one per commit. */
  ghost predicate HistoryInv<D, S>(init: Database<D>, w: World<D, S>) {
    && w.overwrites == 0
    && (forall name :: name in init.rows ==> name in w.db.rows && w.db.rows[name] == init.rows[name])
    && (forall name :: name in w.db.rows <==> name in init.rows || name in w.commits)
    && (forall i :: 0 <= i < |w.commits| ==> w.commits[i] !in init.rows)
    && (forall i, j :: 0 <= i < j < |w.commits| ==> w.commits[i] != w.commits[j])
  }

  ghost predicate Inv<D, S>(engine: Engine<D, S>, init: Database<D>, w: World<D, S>) {
    && (w.lock.Some? ==> w.lock.value in w.runners)
    && (forall r :: r in w.runners ==> RunnerInv(engine, w, r))
    && HistoryInv(init, w)
  }

  // ----- every step keeps the invariant

  /** A runner's own knowledge survives what others may do: nothing while it holds the lock,
      new rows while it does not. */
  lemma BystanderKept<D, S>(engine: Engine<D, S>, w: World<D, S>, t: World<D, S>, d: nat)
    requires d in w.runners && RunnerInv(engine, w, d)
    requires d in t.runners && t.runners[d] == w.runners[d]
    requires t.lock == Some(d) <==> w.lock == Some(d)
    requires t.db == w.db || w.lock != Some(d)
    requires forall name :: name in w.db.rows ==> name in t.db.rows && t.db.rows[name] == w.db.rows[name]
    ensures RunnerInv(engine, t, d)
  {
  }

  /** A step of r that moves only r, and perhaps the lock. */
  lemma LocalStep<D, S>(engine: Engine<D, S>, init: Database<D>, w: World<D, S>, t: World<D, S>, r: nat)
    requires Inv(engine, init, w)
    requires t.db == w.db && t.commits == w.commits && t.overwrites == w.overwrites
    requires r in t.runners && t.runners == w.runners[r := t.runners[r]]
    requires forall d :: d != r ==> (t.lock == Some(d) <==> w.lock == Some(d))
    requires RunnerInv(engine, t, r)
    ensures Inv(engine, init, t)
  {
    forall d | d in t.runners
      ensures RunnerInv(engine, t, d)
    {
      if d != r {
        BystanderKept(engine, w, t, d);
      }
    }
  }

  lemma DecisionKept<D, S>(engine: Engine<D, S>, db: Database<D>, migrations: seq<Migration<S>>, pc: Pc<D>)
    requires pc.Deciding? && PcInv(engine, db, migrations, pc)
    ensures PcInv(engine, db, migrations, AfterDecision(db, migrations, pc))
  {
    if pc.next < |migrations| {
      assert migrations[pc.next].statements[..0] == [];
    }
  }

  /** A real error ends the run where the uninterrupted run would end. */
  lemma FailureKept<D, S>(engine: Engine<D, S>, db: Database<D>, migrations: seq<Migration<S>>, pc: Pc<D>)
    requires pc.InTransaction? && PcInv(engine, db, migrations, pc)
    requires pc.done < |migrations[pc.next].statements|
    requires engine(pc.work, migrations[pc.next].statements[pc.done]).Failed?
    ensures RunResult(db, Broke(pc.next)) == Run(engine, pc.start, migrations)
  {
    hide Current, RecordedUpTo;
    var statements := migrations[pc.next].statements;
    assert statements[..pc.done + 1][..pc.done] == statements[..pc.done];
    BrokenPrefix(engine, db.schema, statements, pc.done + 1);
  }

  lemma StatementKept<D, S>(engine: Engine<D, S>, db: Database<D>, migrations: seq<Migration<S>>, pc: Pc<D>)
    requires pc.InTransaction? && PcInv(engine, db, migrations, pc)
    requires pc.done < |migrations[pc.next].statements|
    ensures PcInv(engine, db, migrations, AfterStatement(engine, migrations[pc.next].statements[pc.done], pc))
  {
    hide Continues, Run;
    var statements := migrations[pc.next].statements;
    assert statements[..pc.done + 1][..pc.done] == statements[..pc.done];
    if engine(pc.work, statements[pc.done]).Failed? {
      FailureKept(engine, db, migrations, pc);
    }
  }

  /** The transaction commits exactly what applying the migration to the committed database
      gives, under a name that was not recorded. */
  lemma CommitIsApply<D, S>(engine: Engine<D, S>, w: World<D, S>, r: nat)
    requires r in w.runners && RunnerInv(engine, w, r) && Enabled(w, Commit(r))
    ensures var m := w.runners[r].migrations[w.runners[r].pc.next];
            && m.name !in w.db.rows
            && Apply(engine, w.db, m) == Some(CommitTransaction(w, r).db)
  {
    var pc := w.runners[r].pc;
    var statements := w.runners[r].migrations[pc.next].statements;
    assert statements[..pc.done] == statements;
  }

  lemma CommitKeepsHistory<D, S>(engine: Engine<D, S>, init: Database<D>, w: World<D, S>, r: nat)
    requires r in w.runners && RunnerInv(engine, w, r) && HistoryInv(init, w) && Enabled(w, Commit(r))
    ensures HistoryInv(init, CommitTransaction(w, r))
  {
    hide ApplyAll;
    CommitIsApply(engine, w, r);
    var name := w.runners[r].migrations[w.runners[r].pc.next].name;
    assert name !in w.commits;
  }

  lemma CommitKeepsCommitter<D, S>(engine: Engine<D, S>, w: World<D, S>, r: nat)
    requires r in w.runners && RunnerInv(engine, w, r) && Enabled(w, Commit(r))
    ensures RunnerInv(engine, CommitTransaction(w, r), r)
  {
    hide ApplyAll;
    CommitIsApply(engine, w, r);
  }

  lemma CommitKept<D, S>(engine: Engine<D, S>, init: Database<D>, w: World<D, S>, r: nat)
    requires Inv(engine, init, w) && Enabled(w, Commit(r))
    ensures Inv(engine, init, CommitTransaction(w, r))
  {
    hide HistoryInv, PcInv, ApplyAll, DistinctNames;
    var t := CommitTransaction(w, r);
    assert RunnerInv(engine, w, r);
    CommitIsApply(engine, w, r);
    CommitKeepsHistory(engine, init, w, r);
    CommitKeepsCommitter(engine, w, r);
    forall d | d in t.runners
      ensures RunnerInv(engine, t, d)
    {
      if d != r {
        BystanderKept(engine, w, t, d);
      }
    }
  }

  lemma ReadKept<D, S>(engine: Engine<D, S>, db: Database<D>, migrations: seq<Migration<S>>)
    ensures PcInv(engine, db, migrations, Deciding(0, db, 0))
  {
  }

  /** Joining, polling, giving up, unlocking and crashing touch only the lock. */
  lemma LockStepKept<D, S>(engine: Engine<D, S>, init: Database<D>, w: World<D, S>, e: Event<S>)
    requires Inv(engine, init, w) && Enabled(w, e)
    requires e.Join? || e.Poll? || e.GiveUp? || e.Unlock? || e.Crash?
    ensures Inv(engine, init, Step(engine, w, e))
  {
    hide HistoryInv, DistinctNames, Current, RecordedUpTo, ApplyAll;
    var t := Step(engine, w, e);
    if t != w {
      assert e.Join? || RunnerInv(engine, w, e.runner);
      LocalStep(engine, init, w, t, e.runner);
    }
  }

  lemma StepKeepsInv<D, S>(engine: Engine<D, S>, init: Database<D>, w: World<D, S>, e: Event<S>)
    requires Inv(engine, init, w) && Enabled(w, e)
    ensures Inv(engine, init, Step(engine, w, e))
  {
    hide HistoryInv, DistinctNames, PcInv, CommitTransaction;
    var t, r := Step(engine, w, e), e.runner;
    if e.Read? || e.Decide? || e.Execute? {
      assert RunnerInv(engine, w, r);
      match e {
        case Read(_) => ReadKept(engine, w.db, w.runners[r].migrations);
        case Decide(_) => DecisionKept(engine, w.db, w.runners[r].migrations, w.runners[r].pc);
        case Execute(_) => StatementKept(engine, w.db, w.runners[r].migrations, w.runners[r].pc);
      }
      LocalStep(engine, init, w, t, r);
    } else if e.Commit? {
      CommitKept(engine, init, w, r);
    } else {
      LockStepKept(engine, init, w, e);
    }
  }

  /** The invariant holds after every interleaving, whatever migration lists the runners bring. */
  lemma {:induction false} ReachableInv<D, S>(engine: Engine<D, S>, init: Database<D>, events: seq<Event<S>>)
    ensures Inv(engine, init, RunEvents(engine, Initial(init), events))
    decreases |events|
  {
    if events != [] {
      var v := RunEvents(engine, Initial(init), events[..|events| - 1]);
      ReachableInv(engine, init, events[..|events| - 1]);
      if Enabled(v, events[|events| - 1]) {
        StepKeepsInv(engine, init, v, events[|events| - 1]);
      }
    }
  }

  // ----- consequences for whole runs

  /** The list a runner brought: that of its first join with distinct names. */
  ghost function Brought<S>(events: seq<Event<S>>, r: nat): Option<seq<Migration<S>>> {
    if events == [] then None
    else
      var before, e := Brought(events[..|events| - 1], r), events[|events| - 1];
      if before.None? && e.Join? && e.runner == r && DistinctNames(e.migrations) then Some(e.migrations) else before
  }

  /** The runners are exactly those that joined, each with the list it brought. */
  lemma {:induction false} RunnersAreTheJoins<D, S>(engine: Engine<D, S>, init: Database<D>,
                                                    events: seq<Event<S>>, r: nat)
    ensures var w := RunEvents(engine, Initial(init), events);
            Brought(events, r) == if r in w.runners then Some(w.runners[r].migrations) else None
    decreases |events|
  {
    hide DistinctNames, AfterDecision, AfterStatement;
    if events != [] {
      RunnersAreTheJoins(engine, init, events[..|events| - 1], r);
    }
  }

  /** Mutual exclusion: two runners are never both between lock and unlock; and the lock is
      never left with a runner that has finished or crashed. */
  lemma MutualExclusion<D, S>(engine: Engine<D, S>, init: Database<D>, events: seq<Event<S>>, r: nat, d: nat)
    ensures var w := RunEvents(engine, Initial(init), events);
            && (r in w.runners && d in w.runners && Critical(w.runners[r].pc) && Critical(w.runners[d].pc) ==> r == d)
            && (w.lock == Some(r) ==> r in w.runners && Critical(w.runners[r].pc))
  {
    hide PcInv, HistoryInv, DistinctNames;
    var w := RunEvents(engine, Initial(init), events);
    ReachableInv(engine, init, events);
    if r in w.runners && d in w.runners {
      assert RunnerInv(engine, w, r) && RunnerInv(engine, w, d);
    }
  }

  /** Across all runners, crashes included, each migration name commits at most once and never
      when it was recorded before; the update arm of the bookkeeping insert never fires; and no
      recorded row is ever changed. */
  lemma CommittedAtMostOnce<D, S>(engine: Engine<D, S>, init: Database<D>, events: seq<Event<S>>)
    ensures var w := RunEvents(engine, Initial(init), events);
            && w.overwrites == 0
            && (forall i, j :: 0 <= i < j < |w.commits| ==> w.commits[i] != w.commits[j])
            && (forall i :: 0 <= i < |w.commits| ==> w.commits[i] !in init.rows)
            && (forall name :: name in w.db.rows <==> name in init.rows || name in w.commits)
            && (forall name :: name in init.rows ==> name in w.db.rows && w.db.rows[name] == init.rows[name])
  {
    ReachableInv(engine, init, events);
  }

  /** Refinement: however its statements interleave with other runners and their crashes, a
      runner that reaches the end of its locked section has turned the database it read into
      exactly what the uninterrupted run computes from it, with the same outcome. */
  lemma LockedSectionIsOneRun<D, S>(engine: Engine<D, S>, init: Database<D>, events: seq<Event<S>>, r: nat)
    ensures var w := RunEvents(engine, Initial(init), events);
            r in w.runners && w.runners[r].pc.Releasing? ==>
              && Brought(events, r).Some?
              && RunResult(w.db, w.runners[r].pc.outcome)
                 == Run(engine, w.runners[r].pc.start, Brought(events, r).value)
  {
    hide Run, HistoryInv, DistinctNames;
    var w := RunEvents(engine, Initial(init), events);
    ReachableInv(engine, init, events);
    RunnersAreTheJoins(engine, init, events, r);
    if r in w.runners {
      assert RunnerInv(engine, w, r);
    }
  }

  /** A runner that reports success leaves all the migrations it brought recorded as they stand
      on disk, whatever the others do afterwards. */
  lemma SuccessMeansRecorded<D, S>(engine: Engine<D, S>, init: Database<D>, events: seq<Event<S>>, r: nat)
    ensures var w := RunEvents(engine, Initial(init), events);
            r in w.runners && w.runners[r].pc == Finished(true) ==>
              && Brought(events, r).Some?
              && RecordedUpTo(w.db, Brought(events, r).value, |Brought(events, r).value|)
  {
    var w := RunEvents(engine, Initial(init), events);
    ReachableInv(engine, init, events);
    RunnersAreTheJoins(engine, init, events, r);
    if r in w.runners {
      assert RunnerInv(engine, w, r);
    }
  }

  // ----- progress

  /** The events by which a runner goes on: neither joining, giving up nor crashing. */
  ghost predicate Forward<S>(e: Event<S>, r: nat) {
    e.runner == r && (e.Poll? || e.Read? || e.Decide? || e.Execute? || e.Commit? || e.Unlock?)
  }

  ghost predicate ForwardOnly<S>(events: seq<Event<S>>, r: nat) {
    forall i :: 0 <= i < |events| ==> Forward(events[i], r)
  }

  /** A runner has at most one way to go on, so running alone is deterministic. */
  lemma OneWayForward<D, S>(w: World<D, S>, r: nat, e: Event<S>, f: Event<S>)
    requires Forward(e, r) && Forward(f, r) && Enabled(w, e) && Enabled(w, f)
    ensures e == f
  {
  }

  /** A runner that gives up or crashes, at whatever point, leaves the committed database and
      every other runner as they were, never keeps the lock, and does not go on. */
  lemma AbandonedLeavesNoTrace<D, S>(engine: Engine<D, S>, init: Database<D>, events: seq<Event<S>>, e: Event<S>)
    requires Enabled(RunEvents(engine, Initial(init), events), e) && (e.GiveUp? || e.Crash?)
    ensures var w := RunEvents(engine, Initial(init), events);
            var t := Step(engine, w, e);
            && t.db == w.db && t.commits == w.commits
            && t.runners - {e.runner} == w.runners - {e.runner}
            && t.lock != Some(e.runner)
            && forall f :: Forward(f, e.runner) ==> !Enabled(t, f)
  {
    hide RunEvents, PcInv, HistoryInv, DistinctNames;
    var w := RunEvents(engine, Initial(init), events);
    ReachableInv(engine, init, events);
    assert RunnerInv(engine, w, e.runner);
  }

  lemma {:induction false} RunFirst<D, S>(engine: Engine<D, S>, w: World<D, S>, e: Event<S>, rest: seq<Event<S>>)
    requires Enabled(w, e)
    ensures RunEvents(engine, w, [e] + rest) == RunEvents(engine, Step(engine, w, e), rest)
    decreases |rest|
  {
    hide Enabled, Step;
    if rest == [] {
      assert [e] + rest == [e] && [e][..0] == [];
      assert RunEvents(engine, w, [e][..0]) == w;
    } else {
      var n := |rest| - 1;
      RunFirst(engine, w, e, rest[..n]);
      assert ([e] + rest)[..n + 1] == [e] + rest[..n];
    }
  }

  lemma {:induction false} RunLast<D, S>(engine: Engine<D, S>, w: World<D, S>, events: seq<Event<S>>, e: Event<S>)
    requires Enabled(RunEvents(engine, w, events), e)
    ensures RunEvents(engine, w, events + [e]) == Step(engine, RunEvents(engine, w, events), e)
  {
    assert (events + [e])[..|events|] == events;
  }

  predicate InSection<D>(pc: Pc<D>) {
    pc.Deciding? || pc.InTransaction?
  }

  /** Migrations still to be looked at in a locked section. */
  function MigrationsLeft<D, S>(x: Runner<D, S>): nat {
    if InSection(x.pc) && x.pc.next <= |x.migrations| then |x.migrations| - x.pc.next else 0
  }

  /** Steps still to be made for the current migration. */
  function StepsLeft<D, S>(x: Runner<D, S>): nat {
    if !InSection(x.pc) || x.pc.next >= |x.migrations| then 0
    else
      var n := |x.migrations[x.pc.next].statements|;
      if x.pc.Deciding? then n + 1 else if x.pc.done <= n then n - x.pc.done else 0
  }

  ghost predicate HasLess<D, S>(y: Runner<D, S>, x: Runner<D, S>) {
    || MigrationsLeft(y) < MigrationsLeft(x)
    || (MigrationsLeft(y) == MigrationsLeft(x) && StepsLeft(y) < StepsLeft(x))
  }

  function NextInSection<D, S>(x: Runner<D, S>, r: nat): Event<S> {
    if !(x.pc.InTransaction? && x.pc.next < |x.migrations|) then Decide(r)
    else if x.pc.done < |x.migrations[x.pc.next].statements| then Execute(r)
    else Commit(r)
  }

  /** One step of a locked section stays in the section, with less left, or ends it. */
  lemma SectionStep<D, S>(engine: Engine<D, S>, w: World<D, S>, r: nat)
    requires r in w.runners && RunnerInv(engine, w, r) && InSection(w.runners[r].pc)
    ensures Enabled(w, NextInSection(w.runners[r], r))
    ensures var x, t := w.runners[r], Step(engine, w, NextInSection(w.runners[r], r));
            && r in t.runners && t.runners[r].migrations == x.migrations
            && (InSection(t.runners[r].pc) || t.runners[r].pc.Releasing?)
            && t.runners[r].pc.start == x.pc.start
            && (InSection(t.runners[r].pc) ==> HasLess(t.runners[r], x))
  {
    hide Continues, ApplyAll, Run;
    var x := w.runners[r];
    match NextInSection(x, r)
    case Decide(_) => DecisionKept(engine, w.db, x.migrations, x.pc);
    case Execute(_) => StatementKept(engine, w.db, x.migrations, x.pc);
    case Commit(_) => CommitKeepsCommitter(engine, w, r);
  }

  lemma OwnInv<D, S>(engine: Engine<D, S>, init: Database<D>, w: World<D, S>, r: nat)
    requires Inv(engine, init, w) && r in w.runners
    ensures RunnerInv(engine, w, r)
  {
  }

  lemma {:induction false} SectionEnds<D, S>(engine: Engine<D, S>, init: Database<D>, w: World<D, S>, r: nat)
    returns (events: seq<Event<S>>)
    requires Inv(engine, init, w) && r in w.runners && InSection(w.runners[r].pc)
    ensures ForwardOnly(events, r)
    ensures var t := RunEvents(engine, w, events);
            && Inv(engine, init, t) && r in t.runners && t.runners[r].migrations == w.runners[r].migrations
            && t.runners[r].pc.Releasing? && t.runners[r].pc.start == w.runners[r].pc.start
    decreases MigrationsLeft(w.runners[r]), StepsLeft(w.runners[r])
  {
    hide Inv, RunnerInv, Step, Enabled, RunEvents, MigrationsLeft, StepsLeft;
    OwnInv(engine, init, w, r);
    var e := NextInSection(w.runners[r], r);
    SectionStep(engine, w, r);
    var t := Step(engine, w, e);
    StepKeepsInv(engine, init, w, e);
    var rest := [];
    if InSection(t.runners[r].pc) {
      rest := SectionEnds(engine, init, t, r);
    } else {
      assert RunEvents(engine, t, []) == t by { RunNothing(engine, t); }
    }
    events := [e] + rest;
    RunFirst(engine, w, e, rest);
  }

  lemma RunNothing<D, S>(engine: Engine<D, S>, w: World<D, S>)
    ensures RunEvents(engine, w, []) == w
  {
  }

  lemma TakesTheLock<D, S>(engine: Engine<D, S>, init: Database<D>, w: World<D, S>, r: nat)
    requires Inv(engine, init, w) && r in w.runners && w.runners[r].pc.Polling? && w.lock.None?
    ensures Enabled(w, Poll(r))
    ensures var u := Step(engine, w, Poll(r));
            && Enabled(u, Read(r))
            && var v := Step(engine, u, Read(r));
               && Inv(engine, init, v) && v.db == w.db && r in v.runners
               && v.runners[r] == Runner(w.runners[r].migrations, Deciding(0, w.db, 0))
  {
    hide HistoryInv, PcInv, DistinctNames;
    StepKeepsInv(engine, init, w, Poll(r));
    StepKeepsInv(engine, init, Step(engine, w, Poll(r)), Read(r));
  }

  lemma ReleasesTheLock<D, S>(engine: Engine<D, S>, init: Database<D>, w: World<D, S>, r: nat)
    requires Inv(engine, init, w) && r in w.runners && w.runners[r].pc.Releasing?
    ensures Enabled(w, Unlock(r))
    ensures var t := Step(engine, w, Unlock(r));
            && t.lock.None? && t.db == w.db && r in t.runners
            && t.runners[r].pc == Finished(w.runners[r].pc.outcome.Completed?)
            && RunResult(w.db, w.runners[r].pc.outcome) == Run(engine, w.runners[r].pc.start, w.runners[r].migrations)
  {
    hide HistoryInv, DistinctNames, Run, RecordedUpTo;
    assert RunnerInv(engine, w, r);
  }

  /** Progress: from every reachable world whose lock is free, whatever crashed before, a polling
      runner that runs alone takes the lock, does its work, frees the lock and finishes, with the
      database and the success that the uninterrupted run computes from what it found. */
  lemma AloneItFinishes<D, S>(engine: Engine<D, S>, init: Database<D>, events: seq<Event<S>>, r: nat)
    returns (more: seq<Event<S>>)
    requires var w := RunEvents(engine, Initial(init), events);
             r in w.runners && w.runners[r].pc.Polling? && w.lock.None?
    ensures ForwardOnly(more, r)
    ensures var w := RunEvents(engine, Initial(init), events);
            var t := RunEvents(engine, w, more);
            && Brought(events, r).Some?
            && var run := Run(engine, w.db, Brought(events, r).value);
            && t.lock.None? && t.db == run.db
            && r in t.runners && t.runners[r].pc == Finished(run.outcome.Completed?)
  {
    hide Inv, RunnerInv, Step, Enabled, Run, RunEvents, Brought;
    var w := RunEvents(engine, Initial(init), events);
    RunnersAreTheJoins(engine, init, events, r);
    ReachableInv(engine, init, events);
    TakesTheLock(engine, init, w, r);
    var u := Step(engine, w, Poll(r));
    var v := Step(engine, u, Read(r));
    var section := SectionEnds(engine, init, v, r);
    ReleasesTheLock(engine, init, RunEvents(engine, v, section), r);
    var rest := section + [Unlock(r)];
    RunLast(engine, v, section, Unlock(r));
    RunFirst(engine, u, Read(r), rest);
    RunFirst(engine, w, Poll(r), [Read(r)] + rest);
    more := [Poll(r)] + ([Read(r)] + rest);
  }

  // ----- a rolling deploy: every runner brings a prefix of one list

  ghost predicate AllBring<S>(events: seq<Event<S>>, list: seq<Migration<S>>) {
    forall e :: e in events && e.Join? ==> e.migrations <= list
  }

  /** The database records exactly the first `base` migrations of the list, and perhaps
      migrations that are not in the list. */
  ghost predicate RecordsPrefix<D, S>(db: Database<D>, list: seq<Migration<S>>, base: nat) {
    base <= |list| && forall j :: 0 <= j < |list| ==> (list[j].name in db.rows <==> j < base)
  }

  /** The committed database is that of one undisturbed runner that applied the next
      migrations of the list to the initial one. */
  ghost predicate IsPrefix<D, S>(engine: Engine<D, S>, init: Database<D>, w: World<D, S>,
                                 list: seq<Migration<S>>, base: nat) {
    && (forall r :: r in w.runners ==> w.runners[r].migrations <= list)
    && base + |w.commits| <= |list|
    && (forall i :: 0 <= i < |w.commits| ==> w.commits[i] == list[base + i].name)
    && Sequential(engine, init, list[base..base + |w.commits|]) == Some(w.db)
  }

  lemma RecordedIffCommitted<D, S>(engine: Engine<D, S>, init: Database<D>, w: World<D, S>,
                                   list: seq<Migration<S>>, base: nat, j: nat)
    requires RecordsPrefix(init, list, base) && IsPrefix(engine, init, w, list, base) && HistoryInv(init, w)
    requires DistinctNames(list) && j < |list|
    ensures list[j].name in w.db.rows <==> j < base + |w.commits|
  {
    hide Sequential;
    if base <= j < base + |w.commits| {
      assert w.commits[j - base] in w.commits;
    }
  }

  /** The committing runner stands exactly at the end of what is recorded. */
  lemma CommitterIsAtTheEnd<D, S>(engine: Engine<D, S>, init: Database<D>, w: World<D, S>,
                                  list: seq<Migration<S>>, base: nat, r: nat)
    requires RecordsPrefix(init, list, base) && IsPrefix(engine, init, w, list, base) && HistoryInv(init, w)
    requires DistinctNames(list) && r in w.runners && RunnerInv(engine, w, r) && Enabled(w, Commit(r))
    ensures w.runners[r].pc.next == base + |w.commits|
  {
    hide Sequential, ApplyAll, HistoryInv, RecordsPrefix, Run, RunFrom;
    CommitIsApply(engine, w, r);
    var next := w.runners[r].pc.next;
    var k := Min(next, base + |w.commits|);
    assert list[k] == w.runners[r].migrations[k];
    assert k < next ==> list[k].name in w.db.rows;
    RecordedIffCommitted(engine, init, w, list, base, k);
  }

  lemma CommitExtendsPrefix<D, S>(engine: Engine<D, S>, init: Database<D>, w: World<D, S>,
                                  list: seq<Migration<S>>, base: nat, r: nat)
    requires RecordsPrefix(init, list, base) && IsPrefix(engine, init, w, list, base) && HistoryInv(init, w)
    requires DistinctNames(list) && r in w.runners && RunnerInv(engine, w, r) && Enabled(w, Commit(r))
    ensures IsPrefix(engine, init, CommitTransaction(w, r), list, base)
  {
    hide HistoryInv, RunnerInv, Apply, RecordsPrefix, DistinctNames;
    CommitterIsAtTheEnd(engine, init, w, list, base, r);
    CommitIsApply(engine, w, r);
    var n := base + |w.commits|;
    assert list[n] == w.runners[r].migrations[n];
    assert list[base..n + 1][..n - base] == list[base..n];
  }

  lemma PrefixStep<D, S>(engine: Engine<D, S>, init: Database<D>, w: World<D, S>,
                         list: seq<Migration<S>>, base: nat, e: Event<S>)
    requires RecordsPrefix(init, list, base) && DistinctNames(list)
    requires Inv(engine, init, w) && IsPrefix(engine, init, w, list, base)
    requires Enabled(w, e) && (e.Join? ==> e.migrations <= list)
    ensures IsPrefix(engine, init, Step(engine, w, e), list, base)
  {
    hide HistoryInv, RunnerInv, Sequential, RecordsPrefix, AfterDecision, AfterStatement;
    if e.Commit? {
      CommitExtendsPrefix(engine, init, w, list, base, e.runner);
    }
  }

  /** From a database that records some first part of the list (none of it, when fresh), with
      every runner bringing a prefix of the list, the committed database is at every moment of
      every run exactly what one undisturbed runner reaches by applying the next migrations of
      the list: schema, rows and recorded names. */
  lemma {:induction false} ConcurrentRunsAreSequential<D, S>(engine: Engine<D, S>, init: Database<D>,
                                                             list: seq<Migration<S>>, base: nat, events: seq<Event<S>>)
    requires RecordsPrefix(init, list, base) && DistinctNames(list) && AllBring(events, list)
    ensures IsPrefix(engine, init, RunEvents(engine, Initial(init), events), list, base)
    decreases |events|
  {
    if events == [] {
      assert list[base..base] == [];
    } else {
      var n := |events| - 1;
      var v, e := RunEvents(engine, Initial(init), events[..n]), events[n];
      assert forall x :: x in events[..n] ==> x in events;
      assert e in events;
      ConcurrentRunsAreSequential(engine, init, list, base, events[..n]);
      ReachableInv(engine, init, events[..n]);
      if Enabled(v, e) {
        PrefixStep(engine, init, v, list, base, e);
      }
    }
  }

  /** Once a runner has reported success, its whole list is committed; and if it brought the
      whole list, the committed database is that of one undisturbed runner that applied all
      migrations that were missing. */
  lemma SuccessMeansWholeList<D, S>(engine: Engine<D, S>, init: Database<D>,
                                    list: seq<Migration<S>>, base: nat, events: seq<Event<S>>, r: nat)
    requires RecordsPrefix(init, list, base) && DistinctNames(list) && AllBring(events, list)
    ensures var w := RunEvents(engine, Initial(init), events);
            r in w.runners && w.runners[r].pc == Finished(true) ==>
              && Brought(events, r).Some? && |Brought(events, r).value| <= base + |w.commits|
              && (Brought(events, r).value == list ==> Sequential(engine, init, list[base..]) == Some(w.db))
  {
    hide Sequential, HistoryInv, Run, Continues, RecordsPrefix, RunEvents, Brought;
    RunnersAreTheJoins(engine, init, events, r);
    var w := RunEvents(engine, Initial(init), events);
    ConcurrentRunsAreSequential(engine, init, list, base, events);
    ReachableInv(engine, init, events);
    if r in w.runners && w.runners[r].pc == Finished(true) {
      assert RunnerInv(engine, w, r);
      var n := |w.runners[r].migrations|;
      if n > 0 {
        assert list[n - 1] == w.runners[r].migrations[n - 1];
        RecordedIffCommitted(engine, init, w, list, base, n - 1);
      }
      assert n == |list| ==> list[base..base + |w.commits|] == list[base..];
    }
  }
}
