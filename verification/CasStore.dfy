/** The compare-and-swap store of scripts/benchmark-cas-contention.ts.  A call of updateWithCAS
    runs atomically up to its `await` or its return; suspended calls may resume in any order. */
module CasStore {
  import opened Prelude

  datatype Record = Record(version: int, balance: int)

  datatype Phase =
    | Running
    | Waiting
    | Succeeded(finalVersion: int)
    | Exhausted
    | KeyNotFound

  /** One call: its arguments, the expected version and attempt number of its loop, and where
      it stands. */
  datatype Call = Call(
    key: string, mutation: Record -> int, maxRetries: int,
    expected: int, attempt: nat, phase: Phase)

  datatype Commit = Commit(call: nat, mutation: Record -> int)

  datatype Store = Store(
    records: map<string, Record>,
    conflicts: int,
    successes: int,
    calls: seq<Call>,
    log: map<string, seq<Commit>>)  // the commits of each key, in order

  function Log(s: Store, key: string): seq<Commit> {
    if key in s.log then s.log[key] else []
  }

  // ----- steps

  function Initial(records: map<string, Record>): Store {
    Store(records, 0, 0, [], map[])
  }

  /** The loop of call c from its test on, until it commits, waits or gives up. */
  function Attempt(s: Store, c: nat): Store
    requires c < |s.calls|
  {
    var call := s.calls[c];
    if call.attempt > call.maxRetries then
      s.(calls := s.calls[c := call.(phase := Exhausted)])
    else if call.key !in s.records then
      s.(calls := s.calls[c := call.(phase := KeyNotFound)])
    else
      var current := s.records[call.key];
      if current.version != call.expected then
        s.(conflicts := s.conflicts + 1, calls := s.calls[c := call.(phase := Waiting)])
      else
        var written := Record(current.version + 1, call.mutation(current));
        s.(records := s.records[call.key := written],
           successes := s.successes + 1,
           calls := s.calls[c := call.(phase := Succeeded(written.version))],
           log := s.log[call.key := Log(s, call.key) + [Commit(c, call.mutation)]])
  }

  function Start(s: Store, key: string, expected: int, mutation: Record -> int, maxRetries: int): Store {
    Attempt(s.(calls := s.calls + [Call(key, mutation, maxRetries, expected, 1, Running)]), |s.calls|)
  }

  /** After the back-off the call reads the version of the live record and loops. */
  function Refresh(s: Store, c: nat): Store
    requires c < |s.calls| && s.calls[c].key in s.records
  {
    var call := s.calls[c];
    var refreshed := call.(expected := s.records[call.key].version, attempt := call.attempt + 1, phase := Running);
    s.(calls := s.calls[c := refreshed])
  }

  function Resume(s: Store, c: nat): Store
    requires c < |s.calls| && s.calls[c].key in s.records
  {
    Attempt(Refresh(s, c), c)
  }

  datatype Event =
    | StartEvent(key: string, expected: int, mutation: Record -> int, maxRetries: int)
    | ResumeEvent(call: nat)

  predicate CanResume(s: Store, c: nat) {
    c < |s.calls| && s.calls[c].phase.Waiting? && s.calls[c].key in s.records
  }

  function Step(s: Store, e: Event): Store {
    match e
    case StartEvent(key, expected, mutation, maxRetries) => Start(s, key, expected, mutation, maxRetries)
    case ResumeEvent(c) => if CanResume(s, c) then Resume(s, c) else s
  }

  function Execute(s: Store, events: seq<Event>): Store {
    if events == [] then s else Step(Execute(s, events[..|events| - 1]), events[|events| - 1])
  }

  // ----- counting over calls

  function Tally(calls: seq<Call>, weight: Call -> nat): nat {
    if calls == [] then 0 else Tally(calls[..|calls| - 1], weight) + weight(calls[|calls| - 1])
  }

  /** Conflicts met by a call: every attempt but the one that ended it. */
  function Conflicts(): Call -> nat {
    (call: Call) => if call.phase.Waiting? || call.attempt == 0 then call.attempt else (call.attempt - 1) as nat
  }

  function Successes(): Call -> nat {
    (call: Call) => if call.phase.Succeeded? then 1 else 0
  }

  function On(key: string, weight: Call -> nat): Call -> nat {
    (call: Call) => if call.key == key then weight(call) else 0
  }

  function One(): Call -> nat {
    (call: Call) => 1
  }

  lemma TallyAppend(calls: seq<Call>, call: Call, weight: Call -> nat)
    ensures Tally(calls + [call], weight) == Tally(calls, weight) + weight(call)
  {
    assert (calls + [call])[..|calls|] == calls;
  }

  lemma {:induction false} TallyUpdate(calls: seq<Call>, c: nat, call: Call, weight: Call -> nat)
    requires c < |calls|
    ensures Tally(calls[c := call], weight) == Tally(calls, weight) - weight(calls[c]) + weight(call)
    decreases |calls|
  {
    var n := |calls| - 1;
    if c == n {
      assert calls[c := call][..n] == calls[..n];
    } else {
      assert calls[c := call][..n] == calls[..n][c := call];
      TallyUpdate(calls[..n], c, call, weight);
    }
  }

  // ----- invariant

  /** A record after a sequence of commits. */
  function Replay(start: Record, log: seq<Commit>): Record {
    if log == [] then start
    else
      var r := Replay(start, log[..|log| - 1]);
      Record(r.version + 1, log[|log| - 1].mutation(r))
  }

  /** A key's record is the replay of its commits, one per successful call. */
  ghost predicate KeyInv(init: map<string, Record>, s: Store, key: string) {
    && (key in init <==> key in s.records)
    && (key in init ==> s.records[key] == Replay(init[key], Log(s, key)))
    && (key !in init ==> Log(s, key) == [])
    && |Log(s, key)| == Tally(s.calls, On(key, Successes()))
  }

  /** Commit i of a key's log was made by a call on that key that succeeded with version i + 1
      above the initial one. */
  ghost predicate MadeBySuccess(init: map<string, Record>, s: Store, key: string, i: nat)
    requires key in init && i < |Log(s, key)|
  {
    var e := Log(s, key)[i];
    && e.call < |s.calls|
    && s.calls[e.call].key == key
    && s.calls[e.call].mutation == e.mutation
    && s.calls[e.call].phase == Succeeded(init[key].version + i + 1)
  }

  /** The log holds nothing but the commits of successful calls; calls that failed, wait or
      never found the key have none. */
  ghost predicate LogInv(init: map<string, Record>, s: Store, key: string) {
    && (Log(s, key) != [] ==> key in init)
    && (key in init ==> forall i :: 0 <= i < |Log(s, key)| ==> MadeBySuccess(init, s, key, i))
  }

  /** The place of a successful call's commit, named by the version it returned. */
  ghost predicate IsLogged(init: map<string, Record>, s: Store, c: nat)
    requires c < |s.calls| && s.calls[c].phase.Succeeded?
  {
    var call := s.calls[c];
    && call.key in init
    && var i := call.phase.finalVersion - init[call.key].version - 1;
       0 <= i < |Log(s, call.key)| && Log(s, call.key)[i] == Commit(c, call.mutation)
  }

  /** What is known of a call at rest: it has met at most one conflict, it gave up only for
      lack of a second attempt, and its final version names its place in the key's log. */
  ghost predicate CallInv(init: map<string, Record>, s: Store, c: nat)
    requires c < |s.calls|
  {
    var call := s.calls[c];
    match call.phase
    case Running => false
    case Waiting => call.attempt == 1 && call.maxRetries >= 1 && call.key in init
    case Exhausted => call.maxRetries < call.attempt <= 2 && (call.attempt == 2 ==> call.maxRetries == 1)
    case KeyNotFound => call.key !in init && call.attempt == 1
    case Succeeded(_) => 1 <= call.attempt <= Min(call.maxRetries, 2) && IsLogged(init, s, c)
  }

  ghost predicate Inv(init: map<string, Record>, s: Store) {
    && (forall key :: KeyInv(init, s, key))
    && (forall key :: LogInv(init, s, key))
    && (forall c :: 0 <= c < |s.calls| ==> CallInv(init, s, c))
    && s.conflicts == Tally(s.calls, Conflicts())
    && s.successes == Tally(s.calls, Successes())
  }

  // ----- every step keeps the invariant

  /** Call c is inside its loop, all others are at rest.  On a second attempt the expected
      version is the live one, because nothing ran since it was read. */
  ghost predicate Ready(init: map<string, Record>, s: Store, c: nat) {
    && c < |s.calls|
    && (forall key :: KeyInv(init, s, key))
    && (forall key :: LogInv(init, s, key))
    && (forall d :: 0 <= d < |s.calls| && d != c ==> CallInv(init, s, d))
    && s.conflicts == Tally(s.calls, Conflicts())
    && s.successes == Tally(s.calls, Successes())
    && var call := s.calls[c];
       && call.phase.Running?
       && (call.attempt == 1
           || (call.attempt == 2 && call.maxRetries >= 1 && call.key in s.records
               && call.expected == s.records[call.key].version))
  }

  /** A log stays true while its successful calls stay as they are. */
  lemma LogKept(init: map<string, Record>, s: Store, t: Store, key: string)
    requires LogInv(init, s, key) && Log(t, key) == Log(s, key) && |s.calls| <= |t.calls|
    requires forall c :: 0 <= c < |s.calls| && s.calls[c].phase.Succeeded? ==> t.calls[c] == s.calls[c]
    ensures LogInv(init, t, key)
  {
    forall i | key in init && 0 <= i < |Log(t, key)|
      ensures MadeBySuccess(init, t, key, i)
    {
      assert MadeBySuccess(init, s, key, i);
    }
  }

  /** The call stops without writing. */
  lemma StopKeepsInv(init: map<string, Record>, s: Store, c: nat, t: Store)
    requires Ready(init, s, c)
    requires t == s.(calls := t.calls, conflicts := t.conflicts) && |t.calls| == |s.calls|
    requires t.calls == s.calls[c := s.calls[c].(phase := t.calls[c].phase)]
    requires !t.calls[c].phase.Succeeded? && CallInv(init, t, c)
    requires t.conflicts == s.conflicts + if t.calls[c].phase.Waiting? then 1 else 0
    ensures Inv(init, t)
  {
    hide Tally;
    var call := t.calls[c];
    TallyUpdate(s.calls, c, call, Conflicts());
    TallyUpdate(s.calls, c, call, Successes());
    forall key
      ensures KeyInv(init, t, key) && LogInv(init, t, key)
    {
      assert KeyInv(init, s, key) && LogInv(init, s, key);
      LogKept(init, s, t, key);
      TallyUpdate(s.calls, c, call, On(key, Successes()));
    }
    forall d | 0 <= d < |t.calls|
      ensures CallInv(init, t, d)
    {
      assert d != c ==> CallInv(init, s, d) && t.calls[d] == s.calls[d];
    }
  }

  /** The version check of call c succeeds. */
  ghost predicate Commits(s: Store, c: nat) {
    && c < |s.calls|
    && s.calls[c].phase.Running?
    && s.calls[c].attempt <= s.calls[c].maxRetries
    && s.calls[c].key in s.records
    && s.records[s.calls[c].key].version == s.calls[c].expected
  }

  lemma CommitKeepsOtherKey(init: map<string, Record>, s: Store, c: nat, key: string)
    requires Commits(s, c) && KeyInv(init, s, key) && key != s.calls[c].key
    ensures KeyInv(init, Attempt(s, c), key)
  {
    hide Tally, Replay;
    var t := Attempt(s, c);
    TallyUpdate(s.calls, c, t.calls[c], On(key, Successes()));
    assert Log(t, key) == Log(s, key);
  }

  lemma ReplayAppend(start: Record, log: seq<Commit>, commit: Commit)
    ensures Replay(start, log + [commit]) ==
            Record(Replay(start, log).version + 1, commit.mutation(Replay(start, log)))
  {
    assert (log + [commit])[..|log|] == log;
  }

  lemma CommitKeepsOwnKey(init: map<string, Record>, s: Store, c: nat)
    requires Commits(s, c) && KeyInv(init, s, s.calls[c].key)
    ensures KeyInv(init, Attempt(s, c), s.calls[c].key)
  {
    hide Tally, Replay;
    var t, call := Attempt(s, c), s.calls[c];
    TallyUpdate(s.calls, c, t.calls[c], On(call.key, Successes()));
    ReplayAppend(init[call.key], Log(s, call.key), Commit(c, call.mutation));
    assert Log(t, call.key) == Log(s, call.key) + [Commit(c, call.mutation)];
  }

  lemma {:induction false} ReplayVersion(start: Record, log: seq<Commit>)
    ensures Replay(start, log).version == start.version + |log|
    decreases |log|
  {
    if log != [] {
      ReplayVersion(start, log[..|log| - 1]);
    }
  }

  lemma CommitKeepsLog(init: map<string, Record>, s: Store, c: nat, key: string)
    requires Commits(s, c) && KeyInv(init, s, key) && LogInv(init, s, key)
    ensures LogInv(init, Attempt(s, c), key)
  {
    hide Tally, Replay;
    var t, call := Attempt(s, c), s.calls[c];
    assert forall d :: 0 <= d < |s.calls| && s.calls[d].phase.Succeeded? ==> t.calls[d] == s.calls[d];
    if key == call.key {
      ReplayVersion(init[key], Log(s, key));
      assert Log(t, key) == Log(s, key) + [Commit(c, call.mutation)];
      assert t.calls[c] == call.(phase := Succeeded(init[key].version + |Log(s, key)| + 1));
      forall i | 0 <= i < |Log(t, key)|
        ensures MadeBySuccess(init, t, key, i)
      {
        assert i < |Log(s, key)| ==> MadeBySuccess(init, s, key, i);
      }
    } else {
      LogKept(init, s, t, key);
    }
  }

  lemma CommitKeepsCall(init: map<string, Record>, s: Store, c: nat, d: nat)
    requires Commits(s, c) && KeyInv(init, s, s.calls[c].key) && 1 <= s.calls[c].attempt <= 2
    requires d < |s.calls| && (d != c ==> CallInv(init, s, d))
    ensures CallInv(init, Attempt(s, c), d)
  {
    hide Tally, Replay;
    var t, key := Attempt(s, c), s.calls[c].key;
    assert Log(t, key) == Log(s, key) + [Commit(c, s.calls[c].mutation)];
    if d == c {
      ReplayVersion(init[key], Log(s, key));
    } else {
      assert t.calls[d] == s.calls[d];
      assert s.calls[d].key != key ==> Log(t, s.calls[d].key) == Log(s, s.calls[d].key);
    }
  }

  lemma AttemptKeepsInv(init: map<string, Record>, s: Store, c: nat)
    requires Ready(init, s, c)
    ensures Inv(init, Attempt(s, c))
  {
    hide Tally, Replay;
    var call, t := s.calls[c], Attempt(s, c);
    assert KeyInv(init, s, call.key);
    if t.calls[c].phase.Succeeded? {
      forall key
        ensures KeyInv(init, t, key) && LogInv(init, t, key)
      {
        assert KeyInv(init, s, key) && LogInv(init, s, key);
        CommitKeepsLog(init, s, c, key);
        if key == call.key {
          CommitKeepsOwnKey(init, s, c);
        } else {
          CommitKeepsOtherKey(init, s, c, key);
        }
      }
      forall d | 0 <= d < |t.calls|
        ensures CallInv(init, t, d)
      {
        CommitKeepsCall(init, s, c, d);
      }
      TallyUpdate(s.calls, c, t.calls[c], Conflicts());
      TallyUpdate(s.calls, c, t.calls[c], Successes());
    } else {
      StopKeepsInv(init, s, c, t);
    }
  }

  lemma StartIsReady(init: map<string, Record>, s: Store, call: Call)
    requires Inv(init, s) && call.phase == Running && call.attempt == 1
    ensures Ready(init, s.(calls := s.calls + [call]), |s.calls|)
  {
    hide Tally;
    var t := s.(calls := s.calls + [call]);
    TallyAppend(s.calls, call, Conflicts());
    TallyAppend(s.calls, call, Successes());
    forall key
      ensures KeyInv(init, t, key) && LogInv(init, t, key)
    {
      assert KeyInv(init, s, key) && LogInv(init, s, key);
      LogKept(init, s, t, key);
      TallyAppend(s.calls, call, On(key, Successes()));
    }
    forall d | 0 <= d < |s.calls|
      ensures CallInv(init, t, d)
    {
      assert CallInv(init, s, d) && t.calls[d] == s.calls[d];
    }
  }

  lemma RefreshIsReady(init: map<string, Record>, s: Store, c: nat)
    requires Inv(init, s) && CanResume(s, c)
    ensures Ready(init, Refresh(s, c), c)
  {
    hide Tally;
    var t := Refresh(s, c);
    assert CallInv(init, s, c);
    TallyUpdate(s.calls, c, t.calls[c], Conflicts());
    TallyUpdate(s.calls, c, t.calls[c], Successes());
    forall key
      ensures KeyInv(init, t, key) && LogInv(init, t, key)
    {
      assert KeyInv(init, s, key) && LogInv(init, s, key);
      LogKept(init, s, t, key);
      TallyUpdate(s.calls, c, t.calls[c], On(key, Successes()));
    }
    forall d | 0 <= d < |s.calls| && d != c
      ensures CallInv(init, t, d)
    {
      assert CallInv(init, s, d) && t.calls[d] == s.calls[d];
    }
  }

  lemma StepKeepsInv(init: map<string, Record>, s: Store, e: Event)
    requires Inv(init, s)
    ensures Inv(init, Step(s, e))
  {
    hide Inv, Ready, Attempt, Refresh;
    match e
    case StartEvent(key, expected, mutation, maxRetries) =>
      var call := Call(key, mutation, maxRetries, expected, 1, Running);
      StartIsReady(init, s, call);
      AttemptKeepsInv(init, s.(calls := s.calls + [call]), |s.calls|);
    case ResumeEvent(c) =>
      if CanResume(s, c) {
        RefreshIsReady(init, s, c);
        AttemptKeepsInv(init, Refresh(s, c), c);
      }
  }

  lemma InitialInv(init: map<string, Record>)
    ensures Inv(init, Initial(init))
  {
    forall key
      ensures KeyInv(init, Initial(init), key) && LogInv(init, Initial(init), key)
    {
    }
  }

  /** The invariant holds after every interleaving of any calls on any initial records. */
  lemma {:induction false} ReachableInv(init: map<string, Record>, events: seq<Event>)
    ensures Inv(init, Execute(Initial(init), events))
    decreases |events|
  {
    if events == [] {
      InitialInv(init);
    } else {
      ReachableInv(init, events[..|events| - 1]);
      StepKeepsInv(init, Execute(Initial(init), events[..|events| - 1]), events[|events| - 1]);
    }
  }

  // ----- consequences for whole runs

  // ----- the calls told by the events alone

  /** The calls made by a run, in order. */
  function CallsIn(events: seq<Event>): (calls: seq<Event>)
    ensures forall i :: 0 <= i < |calls| ==> calls[i].StartEvent?
  {
    if events == [] then []
    else CallsIn(events[..|events| - 1]) +
         if events[|events| - 1].StartEvent? then [events[|events| - 1]] else []
  }

  /** A frame belongs to the call that was made. */
  ghost predicate FrameOf(call: Call, e: Event) {
    e.StartEvent? && call.key == e.key && call.mutation == e.mutation && call.maxRetries == e.maxRetries
  }

  /** There is one frame per call, in order, with the arguments of that call. */
  lemma {:induction false} FramesAreTheCalls(init: map<string, Record>, events: seq<Event>)
    ensures var s := Execute(Initial(init), events);
            |s.calls| == |CallsIn(events)| && forall c :: 0 <= c < |s.calls| ==> FrameOf(s.calls[c], CallsIn(events)[c])
    decreases |events|
  {
    if events != [] {
      var s, e := Execute(Initial(init), events[..|events| - 1]), events[|events| - 1];
      FramesAreTheCalls(init, events[..|events| - 1]);
      match e
      case StartEvent(key, expected, mutation, maxRetries) =>
        StartKeepsFrames(s, key, expected, mutation, maxRetries);
      case ResumeEvent(c) =>
        if CanResume(s, c) {
          ResumeKeepsFrames(s, c);
        }
    }
  }

  lemma AttemptKeepsFrames(s: Store, c: nat)
    requires c < |s.calls|
    ensures var t := Attempt(s, c);
            t.calls == s.calls[c := s.calls[c].(phase := t.calls[c].phase)]
  {
  }

  lemma StartKeepsFrames(s: Store, key: string, expected: int, mutation: Record -> int, maxRetries: int)
    ensures var t := Start(s, key, expected, mutation, maxRetries);
            && |t.calls| == |s.calls| + 1 && t.calls[..|s.calls|] == s.calls
            && FrameOf(t.calls[|s.calls|], StartEvent(key, expected, mutation, maxRetries))
  {
    hide Attempt;
    var call := Call(key, mutation, maxRetries, expected, 1, Running);
    AttemptKeepsFrames(s.(calls := s.calls + [call]), |s.calls|);
  }

  lemma ResumeKeepsFrames(s: Store, c: nat)
    requires CanResume(s, c)
    ensures var t := Resume(s, c);
            && |t.calls| == |s.calls|
            && (forall d :: 0 <= d < |s.calls| && d != c ==> t.calls[d] == s.calls[d])
            && t.calls[c].key == s.calls[c].key && t.calls[c].mutation == s.calls[c].mutation
            && t.calls[c].maxRetries == s.calls[c].maxRetries
  {
    hide Attempt;
    AttemptKeepsFrames(Refresh(s, c), c);
  }

  /** A record after the given calls of a run have been applied in order. */
  ghost function ReplayCalls(start: Record, made: seq<Event>, order: seq<nat>): Record
    requires forall i :: 0 <= i < |order| ==> order[i] < |made| && made[order[i]].StartEvent?
  {
    if order == [] then start
    else
      var r := ReplayCalls(start, made, order[..|order| - 1]);
      Record(r.version + 1, made[order[|order| - 1]].mutation(r))
  }

  /** The numbers of the calls in a log. */
  function Numbers(log: seq<Commit>): (order: seq<nat>)
    ensures |order| == |log| && forall i :: 0 <= i < |log| ==> order[i] == log[i].call
  {
    if log == [] then [] else Numbers(log[..|log| - 1]) + [log[|log| - 1].call]
  }

  lemma {:induction false} ReplayIsOfCalls(start: Record, log: seq<Commit>, made: seq<Event>)
    requires forall i :: 0 <= i < |log| ==>
      log[i].call < |made| && made[log[i].call].StartEvent? && made[log[i].call].mutation == log[i].mutation
    ensures Replay(start, log) == ReplayCalls(start, made, Numbers(log))
    decreases |log|
  {
    if log != [] {
      var n := |log| - 1;
      ReplayIsOfCalls(start, log[..n], made);
      assert Numbers(log)[..n] == Numbers(log[..n]);
    }
  }

  /** `order` lists exactly the calls on the key that have succeeded, in the order of the
      versions they returned. */
  ghost predicate SucceededInOrder(init: map<string, Record>, events: seq<Event>, key: string, order: seq<nat>)
    requires key in init
  {
    var s, made := Execute(Initial(init), events), CallsIn(events);
    && |s.calls| == |made|
    && (forall i :: 0 <= i < |order| ==>
          && order[i] < |made| && made[order[i]].key == key
          && s.calls[order[i]].phase == Succeeded(init[key].version + i + 1))
    && (forall c :: 0 <= c < |made| && made[c].key == key && s.calls[c].phase.Succeeded? ==> c in order)
  }

  lemma LogIsOfCalls(init: map<string, Record>, events: seq<Event>, key: string)
    requires key in init
    ensures var s := Execute(Initial(init), events);
            && SucceededInOrder(init, events, key, Numbers(Log(s, key)))
            && forall i :: 0 <= i < |Log(s, key)| ==>
                 var e := Log(s, key)[i];
                 e.call < |CallsIn(events)| && CallsIn(events)[e.call].mutation == e.mutation
  {
    hide Execute, Tally, Replay, KeyInv, CallsIn, Numbers;
    var s, made := Execute(Initial(init), events), CallsIn(events);
    ReachableInv(init, events);
    FramesAreTheCalls(init, events);
    var log := Log(s, key);
    assert LogInv(init, s, key);
    forall i | 0 <= i < |log|
      ensures log[i].call < |made| && made[log[i].call].mutation == log[i].mutation && made[log[i].call].key == key
      ensures s.calls[log[i].call].phase == Succeeded(init[key].version + i + 1)
    {
      assert MadeBySuccess(init, s, key, i);
      assert FrameOf(s.calls[log[i].call], made[log[i].call]);
    }
    forall c | 0 <= c < |made| && made[c].key == key && s.calls[c].phase.Succeeded?
      ensures c in Numbers(log)
    {
      assert FrameOf(s.calls[c], made[c]) && CallInv(init, s, c) && IsLogged(init, s, c);
      var i := s.calls[c].phase.finalVersion - init[key].version - 1;
      assert Numbers(log)[i] == c;
    }
  }

  /** No update is lost or applied twice: in every reachable state a record is the initial one
      with the mutations of exactly the calls that have succeeded, as they were passed in,
      applied in the order of the versions they returned; its version counts them, and the
      counters count the conflicts and successes of all calls. */
  lemma {:induction false} NoLostUpdates(init: map<string, Record>, events: seq<Event>, key: string)
    returns (order: seq<nat>)
    requires key in init
    ensures SucceededInOrder(init, events, key, order)
    ensures var s := Execute(Initial(init), events);
            && key in s.records
            && s.records[key] == ReplayCalls(init[key], CallsIn(events), order)
            && s.records[key].version == init[key].version + |order|
            && |order| == Tally(s.calls, On(key, Successes()))
            && s.successes == Tally(s.calls, Successes())
            && s.conflicts == Tally(s.calls, Conflicts())
  {
    hide Execute, Tally, Replay, CallInv, CallsIn, SucceededInOrder, ReplayCalls;
    var s := Execute(Initial(init), events);
    ReachableInv(init, events);
    LogIsOfCalls(init, events, key);
    order := Numbers(Log(s, key));
    assert KeyInv(init, s, key);
    ReplayVersion(init[key], Log(s, key));
    ReplayIsOfCalls(init[key], Log(s, key), CallsIn(events));
  }

  /** What one pass of the loop does for the call e, given its attempt number and the version
      it expects: give up, miss the key, conflict, or write the mutated record. */
  ghost predicate IsPass(s: Store, t: Store, c: nat, e: Event, attempt: int, expected: int) {
    && c < |t.calls| && FrameOf(t.calls[c], e)
    && if attempt > e.maxRetries then
         t.calls[c].phase == Exhausted && Untouched(s, t) && t.conflicts == s.conflicts
       else if e.key !in s.records then
         t.calls[c].phase == KeyNotFound && Untouched(s, t) && t.conflicts == s.conflicts
       else if s.records[e.key].version != expected then
         t.calls[c].phase == Waiting && Untouched(s, t) && t.conflicts == s.conflicts + 1
       else
         var version := expected + 1;
         && t.calls[c].phase == Succeeded(version)
         && t.records == s.records[e.key := Record(version, e.mutation(s.records[e.key]))]
         && t.successes == s.successes + 1 && t.conflicts == s.conflicts
  }

  ghost predicate Untouched(s: Store, t: Store) {
    t.records == s.records && t.successes == s.successes
  }

  /** A new call makes its first pass with the version its caller expects. */
  lemma StartIsPass(s: Store, key: string, expected: int, mutation: Record -> int, maxRetries: int)
    ensures IsPass(s, Start(s, key, expected, mutation, maxRetries), |s.calls|,
                   StartEvent(key, expected, mutation, maxRetries), 1, expected)
  {
  }

  /** A resumed call makes its second pass with the live version, whatever ran in between. */
  lemma {:induction false} ResumeIsPass(init: map<string, Record>, events: seq<Event>, c: nat)
    requires CanResume(Execute(Initial(init), events), c)
    ensures var s := Execute(Initial(init), events);
            && c < |CallsIn(events)|
            && s.calls[c].key in s.records
            && IsPass(s, Resume(s, c), c, CallsIn(events)[c], 2, s.records[s.calls[c].key].version)
  {
    hide Execute, Tally, KeyInv, LogInv;
    ReachableInv(init, events);
    FramesAreTheCalls(init, events);
    var s := Execute(Initial(init), events);
    assert CallInv(init, s, c) && FrameOf(s.calls[c], CallsIn(events)[c]);
  }

  /** A step changes a record only by making its call succeed: calls that conflict, give up or
      miss their key leave every record as it was. */
  lemma {:induction false} OnlySuccessWrites(init: map<string, Record>, events: seq<Event>, e: Event, key: string)
    requires key in init
    ensures var s := Execute(Initial(init), events);
            var t := Step(s, e);
            && key in s.records && key in t.records
            && (t.records[key] != s.records[key] ==>
                  && t.successes == s.successes + 1
                  && Log(t, key) != [] && t.records[key].version == s.records[key].version + 1
                  && var c := Log(t, key)[|Log(t, key)| - 1].call;
                     c < |t.calls| && t.calls[c].key == key
                     && t.calls[c].phase == Succeeded(t.records[key].version))
  {
    hide Tally, Replay, Execute, CallInv;
    var s := Execute(Initial(init), events);
    ReachableInv(init, events);
    assert KeyInv(init, s, key);
  }

  lemma PlacesDiffer(init: map<string, Record>, s: Store, c: nat, d: nat)
    requires c < d < |s.calls| && s.calls[c].key == s.calls[d].key
    requires s.calls[c].phase.Succeeded? && s.calls[d].phase.Succeeded?
    requires CallInv(init, s, c) && CallInv(init, s, d)
    ensures s.calls[c].phase.finalVersion != s.calls[d].phase.finalVersion
  {
  }

  /** A successful call's mutation is in the log at the place its returned version names, so
      two successful calls on one key never return the same version. */
  lemma {:induction false} VersionsAreDistinct(init: map<string, Record>, events: seq<Event>, c: nat, d: nat)
    requires var s := Execute(Initial(init), events);
             && c < d < |s.calls| && s.calls[c].key == s.calls[d].key
             && s.calls[c].phase.Succeeded? && s.calls[d].phase.Succeeded?
    ensures var s := Execute(Initial(init), events);
            s.calls[c].phase.finalVersion != s.calls[d].phase.finalVersion
  {
    hide Execute, KeyInv, CallInv, Tally;
    ReachableInv(init, events);
    PlacesDiffer(init, Execute(Initial(init), events), c, d);
  }

  /** Retrying never takes more than one back-off: a call on an existing key that may try twice
      has committed within two attempts or is in its only back-off, from which it commits
      whatever ran in between.  It gives up only when it may not try twice. */
  lemma {:induction false} CommitsWithinTwoAttempts(init: map<string, Record>, events: seq<Event>, c: nat)
    requires c < |Execute(Initial(init), events).calls|
    requires Execute(Initial(init), events).calls[c].key in init
    ensures var s := Execute(Initial(init), events);
            var call := s.calls[c];
            && (call.phase.Exhausted? ==> call.maxRetries <= 1)
            && (call.maxRetries >= 2 ==>
                  || (call.phase.Succeeded? && call.attempt <= 2)
                  || (CanResume(s, c) && call.attempt == 1
                      && Resume(s, c).calls[c].phase.Succeeded? && Resume(s, c).calls[c].attempt == 2))
  {
    var s := Execute(Initial(init), events);
    ReachableInv(init, events);
    assert CallInv(init, s, c);
    assert KeyInv(init, s, s.calls[c].key);
  }

  // ----- a hot key

  /** Every call on the key starts from the same version and may try twice. */
  ghost predicate Contended(events: seq<Event>, key: string, version: int) {
    forall e :: e in events && e.StartEvent? && e.key == key ==> e.expected == version && e.maxRetries >= 2
  }

  /** All calls but the first conflict, once each. */
  ghost predicate HotInv(s: Store, key: string, version: int) {
    var n := Tally(s.calls, On(key, One()));
    && key in s.records
    && Tally(s.calls, On(key, Conflicts())) == Max(0, n - 1)
    && (if n == 0 then s.records[key].version == version else s.records[key].version > version)
    && forall c :: 0 <= c < |s.calls| && s.calls[c].key == key ==> s.calls[c].maxRetries >= 2
  }

  lemma StartKeepsHot(init: map<string, Record>, s: Store, call: Call, key: string, version: int)
    requires Inv(init, s) && HotInv(s, key, version)
    requires call.phase == Running && call.attempt == 1
    requires call.key == key ==> call.expected == version && call.maxRetries >= 2
    ensures HotInv(Attempt(s.(calls := s.calls + [call]), |s.calls|), key, version)
  {
    hide Tally, Inv;
    var u := s.(calls := s.calls + [call]);
    var t := Attempt(u, |s.calls|);
    assert t.calls == s.calls + [t.calls[|s.calls|]];
    TallyAppend(s.calls, t.calls[|s.calls|], On(key, One()));
    TallyAppend(s.calls, t.calls[|s.calls|], On(key, Conflicts()));
  }

  lemma ResumeKeepsHot(init: map<string, Record>, s: Store, c: nat, key: string, version: int)
    requires Inv(init, s) && HotInv(s, key, version) && CanResume(s, c)
    ensures HotInv(Resume(s, c), key, version)
  {
    hide Tally;
    var t := Resume(s, c);
    assert CallInv(init, s, c);
    assert t.calls == s.calls[c := t.calls[c]];
    TallyUpdate(s.calls, c, t.calls[c], On(key, One()));
    TallyUpdate(s.calls, c, t.calls[c], On(key, Conflicts()));
    if s.calls[c].key == key {
      HotHasCalls(s, c, key);
    }
  }

  lemma {:induction false} TallyAtLeast(calls: seq<Call>, c: nat, weight: Call -> nat)
    requires c < |calls|
    ensures Tally(calls, weight) >= weight(calls[c])
    decreases |calls|
  {
    if c < |calls| - 1 {
      TallyAtLeast(calls[..|calls| - 1], c, weight);
    }
  }

  lemma HotHasCalls(s: Store, c: nat, key: string)
    requires c < |s.calls| && s.calls[c].key == key
    ensures Tally(s.calls, On(key, One())) >= 1
  {
    TallyAtLeast(s.calls, c, On(key, One()));
  }

  lemma {:induction false} ReachableHot(init: map<string, Record>, events: seq<Event>, key: string)
    requires key in init && Contended(events, key, init[key].version)
    ensures HotInv(Execute(Initial(init), events), key, init[key].version)
    decreases |events|
  {
    hide HotInv, Inv, Attempt, Resume;
    if events == [] {
      InitiallyHot(init, key);
    } else {
      var n := |events| - 1;
      var s := Execute(Initial(init), events[..n]);
      assert forall e :: e in events[..n] ==> e in events;
      ReachableHot(init, events[..n], key);
      ReachableInv(init, events[..n]);
      match events[n]
      case StartEvent(k, expected, mutation, maxRetries) =>
        assert events[n] in events;
        StartKeepsHot(init, s, Call(k, mutation, maxRetries, expected, 1, Running), key, init[key].version);
      case ResumeEvent(c) =>
        if CanResume(s, c) {
          ResumeKeepsHot(init, s, c, key, init[key].version);
        }
    }
  }

  lemma InitiallyHot(init: map<string, Record>, key: string)
    requires key in init
    ensures HotInv(Initial(init), key, init[key].version)
  {
  }

  lemma {:induction false} TallySame(calls: seq<Call>, v: Call -> nat, w: Call -> nat)
    requires forall c :: 0 <= c < |calls| ==> v(calls[c]) == w(calls[c])
    ensures Tally(calls, v) == Tally(calls, w)
    decreases |calls|
  {
    if calls != [] {
      TallySame(calls[..|calls| - 1], v, w);
    }
  }

  /** n calls on one key, all started from its initial version, cost exactly n - 1 conflicts in
      every schedule. */
  lemma {:induction false} HotKeyConflicts(init: map<string, Record>, events: seq<Event>, key: string)
    requires key in init && Contended(events, key, init[key].version)
    ensures var s := Execute(Initial(init), events);
            Tally(s.calls, On(key, Conflicts())) == Max(0, Tally(s.calls, On(key, One())) - 1)
  {
    ReachableHot(init, events, key);
  }

  ghost predicate NoneWaiting(s: Store, key: string) {
    forall c :: 0 <= c < |s.calls| && s.calls[c].key == key ==> !s.calls[c].phase.Waiting?
  }

  ghost predicate AllSucceeded(s: Store, key: string) {
    forall c :: 0 <= c < |s.calls| && s.calls[c].key == key ==> s.calls[c].phase.Succeeded?
  }

  /** Once none of them is waiting, all n have succeeded and the version has grown by n. */
  lemma {:induction false} HotKeySettles(init: map<string, Record>, events: seq<Event>, key: string)
    requires key in init && Contended(events, key, init[key].version)
    requires NoneWaiting(Execute(Initial(init), events), key)
    ensures var s := Execute(Initial(init), events);
            && AllSucceeded(s, key)
            && key in s.records
            && s.records[key].version == init[key].version + Tally(s.calls, On(key, One()))
  {
    var s := Execute(Initial(init), events);
    ReachableHot(init, events, key);
    ReachableInv(init, events);
    var order := NoLostUpdates(init, events, key);
    forall c | 0 <= c < |s.calls| && s.calls[c].key == key
      ensures s.calls[c].phase.Succeeded?
    {
      assert CallInv(init, s, c);
    }
    TallySame(s.calls, On(key, One()), On(key, Successes()));
  }

  // ----- the class

  class ConcurrentCASStore {
    var store: map<string, Record>
    var conflictCount: int
    var successfulUpdates: int
    var calls: seq<Call>  // the frames of the calls made so far
    ghost var log: map<string, seq<Commit>>
    ghost const init: map<string, Record>

    ghost function State(): Store
      reads this
    {
      Store(store, conflictCount, successfulUpdates, calls, log)
    }

    ghost predicate Valid()
      reads this
    {
      Inv(init, State())
    }

    constructor (records: map<string, Record>)
      ensures Valid() && init == records && State() == Initial(records)
    {
      hide Inv;
      store, conflictCount, successfulUpdates, calls, log := records, 0, 0, [], map[];
      init := records;
      new;
      InitialInv(records);
    }

    /** updateWithCAS up to its first await or its return. */
    method UpdateWithCAS(key: string, expectedVersion: int, mutation: Record -> int, maxRetries: int)
      requires Valid()
      modifies this
      ensures Valid() && State() == Start(old(State()), key, expectedVersion, mutation, maxRetries)
      ensures IsPass(old(State()), State(), |old(calls)|,
                     StartEvent(key, expectedVersion, mutation, maxRetries), 1, expectedVersion)
    {
      StartIsPass(State(), key, expectedVersion, mutation, maxRetries);
      hide Inv, Attempt, IsPass;
      StepKeepsInv(init, State(), StartEvent(key, expectedVersion, mutation, maxRetries));
      calls := calls + [Call(key, mutation, maxRetries, expectedVersion, 1, Running)];
      TryOnce(|calls| - 1);
    }

    /** The rest of a call whose back-off has elapsed, up to its next await or its return. */
    method AfterBackoff(c: nat)
      requires Valid() && CanResume(State(), c)
      modifies this
      ensures Valid() && State() == Resume(old(State()), c)
    {
      hide Inv, Attempt;
      StepKeepsInv(init, State(), ResumeEvent(c));
      var call := calls[c];
      calls := calls[c := call.(expected := store[call.key].version, attempt := call.attempt + 1, phase := Running)];
      TryOnce(c);
    }

    /** One pass of the retry loop, from its test. */
    method TryOnce(c: nat)
      requires c < |calls|
      modifies this
      ensures State() == Attempt(old(State()), c)
    {
      var call := calls[c];
      if call.attempt > call.maxRetries {
        calls := calls[c := call.(phase := Exhausted)];
        return;
      }
      if call.key !in store {
        calls := calls[c := call.(phase := KeyNotFound)];
        return;
      }
      var current := store[call.key];
      if current.version != call.expected {
        conflictCount := conflictCount + 1;
        calls := calls[c := call.(phase := Waiting)];
        return;
      }
      var written := Record(current.version + 1, call.mutation(current));
      store := store[call.key := written];
      successfulUpdates := successfulUpdates + 1;
      calls := calls[c := call.(phase := Succeeded(written.version))];
      log := log[call.key := Log(old(State()), call.key) + [Commit(c, call.mutation)]];
    }
  }
}
