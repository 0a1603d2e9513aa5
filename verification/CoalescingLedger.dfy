/** The coalescing ledger of scripts/benchmark-hotkey-scale.ts as a protocol: posts and flush
    microtasks are atomic steps that may interleave in any order.  A posted update is an Entry
    whose `promise` number is its place in the history of posts; resolving the promise appends
    the entry to `resolved`. */
module CoalescingLedger {
  import opened Prelude

  /** The account that exists from the start. */
  function PrimaryKey(): string {
    "merchant_primary_pool"
  }

  datatype Account = Account(version: int, balance: int)

  datatype Entry = Entry(promise: nat, key: string, delta: int)

  datatype Ledger = Ledger(
    accounts: map<string, Account>,
    queues: map<string, seq<Entry>>,
    processing: set<string>,
    microtasks: seq<string>,
    committed: int,
    batches: int,
    posts: seq<Entry>,
    resolved: seq<Entry>,
    flushes: seq<string>)

  // ----- observations

  function Queue(s: Ledger, key: string): seq<Entry> {
    if key in s.queues then s.queues[key] else []
  }

  /** The stored account, or the one the first flush would create. */
  function AccountOf(s: Ledger, key: string): Account {
    if key in s.accounts then s.accounts[key] else Account(1, 0)
  }

  function Sum(entries: seq<Entry>): int {
    if entries == [] then 0 else Sum(entries[..|entries| - 1]) + entries[|entries| - 1].delta
  }

  /** The entries of one key, in order. */
  function For(entries: seq<Entry>, key: string): seq<Entry> {
    if entries == [] then []
    else For(entries[..|entries| - 1], key) + if entries[|entries| - 1].key == key then [entries[|entries| - 1]] else []
  }

  /** Entries waiting in the queues of the given keys. */
  function Pending(s: Ledger, keys: seq<string>): nat {
    if keys == [] then 0 else Pending(s, keys[..|keys| - 1]) + |Queue(s, keys[|keys| - 1])|
  }

  /** Sum of (version - 1) over all accounts. */
  ghost function VersionBumps(accounts: map<string, Account>): int {
    if accounts == map[] then 0
    else
      var key :| key in accounts;
      accounts[key].version - 1 + VersionBumps(accounts - {key})
  }

  // ----- steps

  function Initial(): Ledger {
    Ledger(map[PrimaryKey() := Account(1, 0)], map[], {}, [], 0, 0, [], [], [])
  }

  function Schedule(s: Ledger, key: string): Ledger {
    if key in s.processing then s
    else s.(processing := s.processing + {key}, microtasks := s.microtasks + [key])
  }

  function Post(s: Ledger, key: string, delta: int): Ledger {
    var e := Entry(|s.posts|, key, delta);
    Schedule(s.(queues := s.queues[key := Queue(s, key) + [e]], posts := s.posts + [e]), key)
  }

  /** Clear the processing mark, and schedule again if updates have arrived meanwhile. */
  function Release(s: Ledger, key: string): Ledger {
    var t := s.(processing := s.processing - {key});
    if Queue(t, key) != [] then Schedule(t, key) else t
  }

  /** Write the whole queue of a key as one batch and resolve its promises. */
  function Commit(s: Ledger, key: string): Ledger {
    var batch, a := Queue(s, key), AccountOf(s, key);
    s.(accounts := s.accounts[key := Account(a.version + 1, a.balance + Sum(batch))],
       queues := s.queues[key := []],
       committed := s.committed + |batch|,
       batches := s.batches + 1,
       resolved := s.resolved + batch,
       flushes := s.flushes + [key])
  }

  function Flush(s: Ledger, key: string): Ledger {
    if Queue(s, key) == [] then s.(processing := s.processing - {key}) else Release(Commit(s, key), key)
  }

  function RunTask(s: Ledger, i: nat): Ledger
    requires i < |s.microtasks|
  {
    Flush(s.(microtasks := s.microtasks[..i] + s.microtasks[i + 1..]), s.microtasks[i])
  }

  datatype Event = PostEvent(key: string, delta: int) | RunEvent(task: nat)

  function Step(s: Ledger, e: Event): Ledger {
    match e
    case PostEvent(key, delta) => Post(s, key, delta)
    case RunEvent(i) => if i < |s.microtasks| then RunTask(s, i) else s
  }

  function Execute(s: Ledger, events: seq<Event>): Ledger {
    if events == [] then s else Step(Execute(s, events[..|events| - 1]), events[|events| - 1])
  }

  /** Run microtasks first in, first out, until none is left. */
  function Drain(s: Ledger): (r: Ledger)
    ensures r.microtasks == []
    decreases |s.microtasks|
  {
    if s.microtasks == [] then s else Drain(RunTask(s, 0))
  }

  // ----- invariant

  /** No wake-up is lost: a key is marked as processing exactly when updates wait for it, and
      then exactly one flush is outstanding. */
  ghost predicate WakeUp(s: Ledger, key: string) {
    && (key in s.processing <==> Queue(s, key) != [])
    && multiset(s.microtasks)[key] == (if Queue(s, key) == [] then 0 else 1)
  }

  /** Nothing is lost, duplicated or reordered: what a key has resolved followed by what it
      has queued is what was posted to it; the account reflects exactly the resolved part. */
  ghost predicate Accounted(s: Ledger, key: string) {
    && For(s.resolved, key) + Queue(s, key) == For(s.posts, key)
    && AccountOf(s, key).balance == Sum(For(s.resolved, key))
    && AccountOf(s, key).version == 1 + multiset(s.flushes)[key]
    && forall e :: e in Queue(s, key) ==> e.key == key
  }

  ghost predicate Inv(s: Ledger) {
    && (forall key :: WakeUp(s, key))
    && (forall key :: Accounted(s, key))
    && s.committed == |s.resolved|
    && s.committed + Pending(s, s.microtasks) == |s.posts|
    && s.batches == |s.flushes| == VersionBumps(s.accounts)
    && forall i :: 0 <= i < |s.posts| ==> s.posts[i].promise == i
  }

  // ----- entries and sums

  lemma ForAppend(a: seq<Entry>, e: Entry, key: string)
    ensures For(a + [e], key) == For(a, key) + if e.key == key then [e] else []
  {
    assert (a + [e])[..|a|] == a;
  }

  lemma {:induction false} ForSplit(a: seq<Entry>, b: seq<Entry>, key: string)
    ensures For(a + b, key) == For(a, key) + For(b, key)
    decreases |b|
  {
    if b == [] {
      assert a + b == a;
    } else {
      ForSplit(a, b[..|b| - 1], key);
      assert (a + b)[..|a + b| - 1] == a + b[..|b| - 1];
    }
  }

  lemma {:induction false} ForOwner(b: seq<Entry>, owner: string, key: string)
    requires forall e :: e in b ==> e.key == owner
    ensures For(b, key) == if key == owner then b else []
    decreases |b|
  {
    if b != [] {
      var last, rest := b[|b| - 1], b[..|b| - 1];
      assert last in b && last.key == owner;
      assert b == rest + [last];
      ForOwner(rest, owner, key);
      assert For(b, key) == For(rest, key) + if last.key == key then [last] else [];
    }
  }

  lemma {:induction false} SumAppend(a: seq<Entry>, b: seq<Entry>)
    ensures Sum(a + b) == Sum(a) + Sum(b)
    decreases |b|
  {
    if b == [] {
      assert a + b == a;
    } else {
      SumAppend(a, b[..|b| - 1]);
      assert (a + b)[..|a + b| - 1] == a + b[..|b| - 1];
    }
  }

  lemma {:induction false} PendingSame(s: Ledger, t: Ledger, keys: seq<string>)
    requires forall key :: key in keys ==> Queue(s, key) == Queue(t, key)
    ensures Pending(s, keys) == Pending(t, keys)
    decreases |keys|
  {
    if keys != [] {
      assert forall key :: key in keys[..|keys| - 1] ==> key in keys;
      assert keys[|keys| - 1] in keys;
      PendingSame(s, t, keys[..|keys| - 1]);
    }
  }

  lemma {:induction false} PendingSplit(s: Ledger, a: seq<string>, b: seq<string>)
    ensures Pending(s, a + b) == Pending(s, a) + Pending(s, b)
    decreases |b|
  {
    if b == [] {
      assert a + b == a;
    } else {
      PendingSplit(s, a, b[..|b| - 1]);
      assert (a + b)[..|a + b| - 1] == a + b[..|b| - 1];
    }
  }

  lemma PendingWithout(s: Ledger, keys: seq<string>, i: nat)
    requires i < |keys|
    ensures Pending(s, keys) == |Queue(s, keys[i])| + Pending(s, keys[..i] + keys[i + 1..])
  {
    assert keys == keys[..i] + [keys[i]] + keys[i + 1..];
    PendingSplit(s, keys[..i] + [keys[i]], keys[i + 1..]);
    PendingSplit(s, keys[..i], [keys[i]]);
    PendingSplit(s, keys[..i], keys[i + 1..]);
    assert [keys[i]][..0] == [];
  }

  lemma {:induction false} BumpsWithout(m: map<string, Account>, key: string)
    requires key in m
    ensures VersionBumps(m) == m[key].version - 1 + VersionBumps(m - {key})
    decreases |m|
  {
    var k :| k in m && VersionBumps(m) == m[k].version - 1 + VersionBumps(m - {k});
    if k != key {
      BumpsWithout(m - {k}, key);
      BumpsWithout(m - {key}, k);
      assert m - {k} - {key} == m - {key} - {k};
    }
  }

  lemma BumpsUpdate(m: map<string, Account>, key: string, a: Account)
    ensures VersionBumps(m[key := a]) == VersionBumps(m) + a.version - if key in m then m[key].version else 1
  {
    BumpsWithout(m[key := a], key);
    assert m[key := a] - {key} == m - {key};
    if key in m {
      BumpsWithout(m, key);
    } else {
      assert m - {key} == m;
    }
  }

  // ----- every step keeps the invariant

  lemma PostKeepsWakeUp(s: Ledger, key: string, delta: int, k: string)
    requires WakeUp(s, k)
    ensures WakeUp(Post(s, key, delta), k)
  {
    hide Sum, For, Pending;
    assert multiset(s.microtasks + [key]) == multiset(s.microtasks) + multiset{key};
  }

  lemma PostKeepsAccounted(s: Ledger, key: string, delta: int, k: string)
    requires Accounted(s, k)
    ensures Accounted(Post(s, key, delta), k)
  {
    hide Sum, For, Pending;
    var e, t := Entry(|s.posts|, key, delta), Post(s, key, delta);
    ForAppend(s.posts, e, k);
    assert t.posts == s.posts + [e] && t.resolved == s.resolved && t.accounts == s.accounts && t.flushes == s.flushes;
    if k == key {
      assert For(s.resolved, k) + (Queue(s, k) + [e]) == For(s.resolved, k) + Queue(s, k) + [e];
      assert Queue(t, k) == Queue(s, k) + [e];
    } else {
      assert Queue(t, k) == Queue(s, k);
    }
  }

  /** One more entry waits under a key that is listed once. */
  lemma PendingGrows(s: Ledger, t: Ledger, keys: seq<string>, key: string)
    requires multiset(keys)[key] == 1
    requires forall k :: |Queue(t, k)| == |Queue(s, k)| + if k == key then 1 else 0
    requires forall k :: k != key ==> Queue(t, k) == Queue(s, k)
    ensures Pending(t, keys) == Pending(s, keys) + 1
  {
    assert key in keys;
    var i :| 0 <= i < |keys| && keys[i] == key;
    var rest := keys[..i] + keys[i + 1..];
    RemoveAt(keys, i);
    assert key !in multiset(rest);
    assert forall k :: k in rest ==> k in multiset(rest);
    PendingSame(s, t, rest);
    PendingWithout(s, keys, i);
    PendingWithout(t, keys, i);
  }

  lemma PostKeepsPending(s: Ledger, key: string, delta: int)
    requires WakeUp(s, key)
    ensures var t := Post(s, key, delta); Pending(t, t.microtasks) == Pending(s, s.microtasks) + 1
  {
    var t := Post(s, key, delta);
    PostKeepsWakeUp(s, key, delta, key);
    assert t.microtasks == if key in s.processing then s.microtasks else s.microtasks + [key];
    assert Queue(t, key) != [];
    PendingGrows(s, t, t.microtasks, key);
    PendingSplit(s, s.microtasks, [key]);
    assert [key][..0] == [];
  }

  lemma PostKeepsInv(s: Ledger, key: string, delta: int)
    requires Inv(s)
    ensures Inv(Post(s, key, delta))
  {
    forall k
      ensures WakeUp(Post(s, key, delta), k) && Accounted(Post(s, key, delta), k)
    {
      assert WakeUp(s, k) && Accounted(s, k);
      PostKeepsWakeUp(s, key, delta, k);
      PostKeepsAccounted(s, key, delta, k);
    }
    assert WakeUp(s, key);
    PostKeepsPending(s, key, delta);
  }

  lemma RunKeepsWakeUp(s: Ledger, i: nat, k: string)
    requires i < |s.microtasks|
    requires WakeUp(s, k) && WakeUp(s, s.microtasks[i])
    ensures WakeUp(RunTask(s, i), k)
  {
    hide Sum, For, Pending;
    RemoveAt(s.microtasks, i);
    assert s.microtasks[i] in multiset(s.microtasks);
  }

  lemma CommitKeepsOthers(s: Ledger, key: string, k: string)
    requires k != key && Accounted(s, k) && Accounted(s, key)
    ensures Accounted(Commit(s, key), k)
  {
    hide Sum, For;
    var t := Commit(s, key);
    ForSplit(s.resolved, Queue(s, key), k);
    ForOwner(Queue(s, key), key, k);
    assert For(t.resolved, k) == For(s.resolved, k);
    assert Queue(t, k) == Queue(s, k) && AccountOf(t, k) == AccountOf(s, k);
    assert multiset(t.flushes)[k] == multiset(s.flushes)[k];
  }

  lemma CommitKeepsOwn(s: Ledger, key: string)
    requires Accounted(s, key)
    ensures Accounted(Commit(s, key), key)
  {
    hide Sum, For;
    var t := Commit(s, key);
    ForSplit(s.resolved, Queue(s, key), key);
    ForOwner(Queue(s, key), key, key);
    SumAppend(For(s.resolved, key), Queue(s, key));
    assert Queue(t, key) == [] && For(t.resolved, key) + [] == For(t.resolved, key);
    assert multiset(t.flushes)[key] == multiset(s.flushes)[key] + 1;
  }

  lemma AccountedSame(s: Ledger, t: Ledger, k: string)
    requires Accounted(s, k)
    requires t.resolved == s.resolved && t.posts == s.posts && t.flushes == s.flushes
    requires t.queues == s.queues && t.accounts == s.accounts
    ensures Accounted(t, k)
  {
    hide Sum, For;
    assert Queue(t, k) == Queue(s, k) && AccountOf(t, k) == AccountOf(s, k);
  }

  lemma RunKeepsAccounted(s: Ledger, i: nat, k: string)
    requires i < |s.microtasks|
    requires Accounted(s, k) && Accounted(s, s.microtasks[i])
    ensures Accounted(RunTask(s, i), k)
  {
    hide Accounted, Commit;
    var key, u := s.microtasks[i], s.(microtasks := s.microtasks[..i] + s.microtasks[i + 1..]);
    AccountedSame(s, u, k);
    AccountedSame(s, u, key);
    if Queue(u, key) == [] {
      AccountedSame(u, RunTask(s, i), k);
    } else {
      if k == key {
        CommitKeepsOwn(u, key);
      } else {
        CommitKeepsOthers(u, key, k);
      }
      AccountedSame(Commit(u, key), RunTask(s, i), k);
    }
  }

  lemma RunKeepsPending(s: Ledger, i: nat)
    requires Inv(s) && i < |s.microtasks|
    ensures var t := RunTask(s, i);
            Pending(t, t.microtasks) + |Queue(s, s.microtasks[i])| == Pending(s, s.microtasks)
  {
    var key, t := s.microtasks[i], RunTask(s, i);
    var rest := s.microtasks[..i] + s.microtasks[i + 1..];
    RemoveAt(s.microtasks, i);
    assert WakeUp(s, key);
    assert key !in multiset(rest);
    PendingSame(s, t, rest);
    PendingWithout(s, s.microtasks, i);
  }

  /** A scheduled flush always finds work, resolves all of it in one batch, never leaves any
      behind, and so schedules nothing. */
  lemma RunFindsWork(s: Ledger, i: nat)
    requires Inv(s) && i < |s.microtasks|
    ensures Queue(s, s.microtasks[i]) != [] && Queue(RunTask(s, i), s.microtasks[i]) == []
    ensures RunTask(s, i).resolved == s.resolved + Queue(s, s.microtasks[i])
    ensures RunTask(s, i).flushes == s.flushes + [s.microtasks[i]] && RunTask(s, i).batches == s.batches + 1
    ensures RunTask(s, i).posts == s.posts
    ensures RunTask(s, i).microtasks == s.microtasks[..i] + s.microtasks[i + 1..]
  {
    assert WakeUp(s, s.microtasks[i]);
    assert s.microtasks[i] in multiset(s.microtasks);
  }

  lemma RunKeepsInv(s: Ledger, i: nat)
    requires Inv(s) && i < |s.microtasks|
    ensures Inv(RunTask(s, i))
  {
    hide Sum, For, Pending, WakeUp, Accounted, VersionBumps;
    var key := s.microtasks[i];
    assert WakeUp(s, key) && Accounted(s, key);
    forall k
      ensures WakeUp(RunTask(s, i), k) && Accounted(RunTask(s, i), k)
    {
      assert WakeUp(s, k) && Accounted(s, k);
      RunKeepsWakeUp(s, i, k);
      RunKeepsAccounted(s, i, k);
    }
    RunKeepsPending(s, i);
    RunFindsWork(s, i);
    BumpsUpdate(s.accounts, key, RunTask(s, i).accounts[key]);
  }

  lemma InitialInv()
    ensures Inv(Initial())
  {
    BumpsUpdate(map[], PrimaryKey(), Account(1, 0));
    assert map[][PrimaryKey() := Account(1, 0)] == Initial().accounts;
    forall key
      ensures WakeUp(Initial(), key) && Accounted(Initial(), key)
    {
    }
  }

  /** The invariant holds after every interleaving of posts and flushes. */
  lemma {:induction false} ReachableInv(events: seq<Event>)
    ensures Inv(Execute(Initial(), events))
    decreases |events|
  {
    if events == [] {
      InitialInv();
    } else {
      var n := |events| - 1;
      ReachableInv(events[..n]);
      var s := Execute(Initial(), events[..n]);
      match events[n]
      case PostEvent(key, delta) => PostKeepsInv(s, key, delta);
      case RunEvent(i) => if i < |s.microtasks| { RunKeepsInv(s, i); }
    }
  }

  // ----- consequences for whole runs

  /** Balance of a ledger that applies every post at once. */
  function SerialBalance(posts: seq<Entry>, key: string): int {
    if posts == [] then 0
    else
      var last := posts[|posts| - 1];
      SerialBalance(posts[..|posts| - 1], key) + if last.key == key then last.delta else 0
  }

  lemma {:induction false} SerialIsSum(posts: seq<Entry>, key: string)
    ensures SerialBalance(posts, key) == Sum(For(posts, key))
    decreases |posts|
  {
    if posts != [] {
      var n := |posts| - 1;
      SerialIsSum(posts[..n], key);
      SumAppend(For(posts[..n], key), if posts[n].key == key then [posts[n]] else []);
      assert [posts[n]][..0] == [];
    }
  }

  // ----- the history told by the events alone

  /** The posts made by a run, numbered in order. */
  function PostsIn(events: seq<Event>): seq<Entry> {
    if events == [] then []
    else
      var before := PostsIn(events[..|events| - 1]);
      match events[|events| - 1]
      case PostEvent(key, delta) => before + [Entry(|before|, key, delta)]
      case RunEvent(_) => before
  }

  /** The sum of all deltas posted to a key. */
  function PostedSum(events: seq<Event>, key: string): int {
    if events == [] then 0
    else
      PostedSum(events[..|events| - 1], key) +
      match events[|events| - 1]
      case PostEvent(k, delta) => if k == key then delta else 0
      case RunEvent(_) => 0
  }

  /** Whether the last event ran a microtask, and of which key. */
  ghost predicate EndsWithRunOf(events: seq<Event>, key: string)
    requires events != []
  {
    var tasks, e := Execute(Initial(), events[..|events| - 1]).microtasks, events[|events| - 1];
    e.RunEvent? && e.task < |tasks| && tasks[e.task] == key
  }

  ghost function RunsOf(events: seq<Event>, key: string): nat {
    if events == [] then 0
    else RunsOf(events[..|events| - 1], key) + if EndsWithRunOf(events, key) then 1 else 0
  }

  /** Microtasks run, of any key. */
  ghost function RunsIn(events: seq<Event>): nat {
    if events == [] then 0
    else
      var e := events[|events| - 1];
      RunsIn(events[..|events| - 1]) +
      if e.RunEvent? && e.task < |Execute(Initial(), events[..|events| - 1]).microtasks| then 1 else 0
  }

  /** The recorded posts are the posts of the run. */
  lemma {:induction false} PostsAreTheEvents(events: seq<Event>)
    ensures Execute(Initial(), events).posts == PostsIn(events)
    decreases |events|
  {
    if events != [] {
      PostsAreTheEvents(events[..|events| - 1]);
    }
  }

  lemma {:induction false} PostedSumIsSerial(events: seq<Event>, key: string)
    ensures SerialBalance(PostsIn(events), key) == PostedSum(events, key)
    decreases |events|
  {
    if events != [] {
      var before := PostsIn(events[..|events| - 1]);
      PostedSumIsSerial(events[..|events| - 1], key);
      if events[|events| - 1].PostEvent? {
        assert PostsIn(events)[..|before|] == before;
      }
    }
  }

  lemma {:induction false} FlushesAreRuns(events: seq<Event>, key: string)
    ensures var s := Execute(Initial(), events);
            multiset(s.flushes)[key] == RunsOf(events, key) && |s.flushes| == RunsIn(events)
    decreases |events|
  {
    if events != [] {
      var s, e := Execute(Initial(), events[..|events| - 1]), events[|events| - 1];
      FlushesAreRuns(events[..|events| - 1], key);
      ReachableInv(events[..|events| - 1]);
      if e.RunEvent? && e.task < |s.microtasks| {
        RunFindsWork(s, e.task);
      }
    }
  }

  /** Conservation at every moment of every run: what a key shows plus what it still owes is
      the sum of the deltas the run posted to it, and its version counts the flushes the run
      made of it. */
  lemma {:induction false} Conservation(events: seq<Event>, key: string)
    ensures var s := Execute(Initial(), events);
            && AccountOf(s, key).balance + Sum(Queue(s, key)) == PostedSum(events, key)
            && AccountOf(s, key).version == 1 + RunsOf(events, key)
  {
    hide Execute;
    var s := Execute(Initial(), events);
    ReachableInv(events);
    assert Accounted(s, key);
    SumAppend(For(s.resolved, key), Queue(s, key));
    SerialIsSum(s.posts, key);
    PostsAreTheEvents(events);
    PostedSumIsSerial(events, key);
    FlushesAreRuns(events, key);
  }

  /** An account exists exactly if it is the primary one or has been flushed. */
  lemma {:induction false} AccountsOfRun(events: seq<Event>, key: string)
    ensures key in Execute(Initial(), events).accounts <==> key == "merchant_primary_pool" || RunsOf(events, key) > 0
    decreases |events|
  {
    if events != [] {
      var s, e := Execute(Initial(), events[..|events| - 1]), events[|events| - 1];
      AccountsOfRun(events[..|events| - 1], key);
      ReachableInv(events[..|events| - 1]);
      if e.RunEvent? && e.task < |s.microtasks| {
        RunFindsWork(s, e.task);
      }
    }
  }

  /** The two counters tell the true history at every moment of every run: one batch per
      microtask run, which is the sum of (version - 1) over the accounts, and one committed
      update per post that is no longer pending. */
  lemma {:induction false} CountersAreTrue(events: seq<Event>)
    ensures var s := Execute(Initial(), events);
            && s.batches == RunsIn(events) == VersionBumps(s.accounts)
            && s.committed + Pending(s, s.microtasks) == |PostsIn(events)|
  {
    hide Execute;
    ReachableInv(events);
    PostsAreTheEvents(events);
    FlushesAreRuns(events, "");
  }

  /** Draining posts nothing and runs the outstanding flushes in the order they were scheduled,
      at the cost of one batch each. */
  lemma {:induction false} DrainKeepsInv(s: Ledger)
    requires Inv(s)
    ensures Inv(Drain(s)) && Drain(s).posts == s.posts
    ensures Drain(s).flushes == s.flushes + s.microtasks
    ensures Drain(s).batches == s.batches + |s.microtasks|
    decreases |s.microtasks|
  {
    hide Inv, RunTask;
    if s.microtasks == [] {
      assert s.flushes + [] == s.flushes;
    } else {
      var t := RunTask(s, 0);
      RunKeepsInv(s, 0);
      RunFindsWork(s, 0);
      DrainKeepsInv(t);
      assert t.microtasks == s.microtasks[1..];
      assert s.flushes + [s.microtasks[0]] + s.microtasks[1..] == s.flushes + s.microtasks;
    }
  }

  lemma {:induction false} EntryCount(entries: seq<Entry>, e: Entry)
    ensures multiset(For(entries, e.key))[e] == multiset(entries)[e]
    decreases |entries|
  {
    if entries != [] {
      var n := |entries| - 1;
      EntryCount(entries[..n], e);
      assert entries == entries[..n] + [entries[n]];
    }
  }

  lemma {:induction false} NumberedOnce(posts: seq<Entry>, i: nat)
    requires i < |posts| && forall j :: 0 <= j < |posts| ==> posts[j].promise == j
    ensures multiset(posts)[posts[i]] == 1
    decreases |posts|
  {
    var n := |posts| - 1;
    assert posts == posts[..n] + [posts[n]];
    if i < n {
      NumberedOnce(posts[..n], i);
    } else {
      assert posts[n] !in posts[..n];
    }
  }

  /** A state without outstanding microtasks owes nothing: every queue is empty, every promise
      is resolved exactly once and in posting order per key, and the balances are those of a
      one-at-a-time ledger. */
  lemma QuiescentIsSerial(s: Ledger, key: string, i: nat)
    requires Inv(s) && s.microtasks == []
    ensures Queue(s, key) == [] && key !in s.processing
    ensures For(s.resolved, key) == For(s.posts, key)
    ensures AccountOf(s, key).balance == SerialBalance(s.posts, key)
    ensures s.committed == |s.posts|
    ensures i < |s.posts| ==> multiset(s.resolved)[s.posts[i]] == 1
  {
    hide Sum;
    assert WakeUp(s, key) && Accounted(s, key);
    SerialIsSum(s.posts, key);
    if i < |s.posts| {
      var e := s.posts[i];
      assert WakeUp(s, e.key) && Accounted(s, e.key);
      EntryCount(s.resolved, e);
      EntryCount(s.posts, e);
      NumberedOnce(s.posts, i);
    }
  }

  /** After any run, letting the outstanding microtasks run brings the ledger to rest: nothing
      is queued, every post of the run has its promise resolved exactly once and in order per
      key, and every balance is the sum of the deltas posted. */
  lemma {:induction false} DrainedRun(events: seq<Event>, key: string, i: nat)
    ensures var s := Execute(Initial(), events);
            var d := Drain(s);
            && d.batches == s.batches + |s.microtasks| && d.flushes == s.flushes + s.microtasks
            && Queue(d, key) == [] && key !in d.processing
            && For(d.resolved, key) == For(PostsIn(events), key)
            && AccountOf(d, key).balance == PostedSum(events, key)
            && d.committed == |PostsIn(events)|
            && (i < |PostsIn(events)| ==> multiset(d.resolved)[PostsIn(events)[i]] == 1)
  {
    hide Execute, Sum, For;
    ReachableInv(events);
    PostsAreTheEvents(events);
    PostedSumIsSerial(events, key);
    DrainKeepsInv(Execute(Initial(), events));
    QuiescentIsSerial(Drain(Execute(Initial(), events)), key, i);
  }

  // ----- no starvation

  /** Outstanding flushes stand in the order of their oldest waiting update. */
  ghost predicate Ordered(s: Ledger) {
    forall i, j :: 0 <= i < j < |s.microtasks| ==> Older(s, s.microtasks[i], s.microtasks[j])
  }

  ghost predicate Older(s: Ledger, k: string, l: string) {
    Queue(s, k) != [] && Queue(s, l) != [] ==> Queue(s, k)[0].promise < Queue(s, l)[0].promise
  }

  /** Promise numbers ascend. */
  ghost predicate Numbered(entries: seq<Entry>) {
    forall i, j :: 0 <= i < j < |entries| ==> entries[i].promise < entries[j].promise
  }

  lemma {:induction false} ForIsNumbered(posts: seq<Entry>, key: string)
    requires forall i :: 0 <= i < |posts| ==> posts[i].promise == i
    ensures Numbered(For(posts, key))
    ensures forall i :: 0 <= i < |For(posts, key)| ==> For(posts, key)[i].promise < |posts|
    decreases |posts|
  {
    if posts != [] {
      ForIsNumbered(posts[..|posts| - 1], key);
    }
  }

  lemma NumberedSuffix(a: seq<Entry>, b: seq<Entry>, n: nat)
    requires Numbered(a + b) && forall i :: 0 <= i < |a + b| ==> (a + b)[i].promise < n
    ensures Numbered(b) && forall i :: 0 <= i < |b| ==> b[i].promise < n
  {
    forall i | 0 <= i < |b|
      ensures b[i] == (a + b)[|a| + i]
    {
    }
  }

  lemma QueueIsNumbered(s: Ledger, key: string)
    requires Inv(s)
    ensures Numbered(Queue(s, key))
    ensures forall i :: 0 <= i < |Queue(s, key)| ==> Queue(s, key)[i].promise < |s.posts|
  {
    hide Sum, Pending, VersionBumps, Numbered, For, Queue, AccountOf, WakeUp;
    assert Accounted(s, key);
    ForIsNumbered(s.posts, key);
    NumberedSuffix(For(s.resolved, key), Queue(s, key), |s.posts|);
  }

  lemma PostKeepsOrder(s: Ledger, key: string, delta: int)
    requires Inv(s) && Ordered(s)
    ensures Ordered(Post(s, key, delta))
  {
    hide Sum, Pending, VersionBumps, For, Accounted;
    var t := Post(s, key, delta);
    assert WakeUp(s, key);
    forall i, j | 0 <= i < j < |t.microtasks|
      ensures Older(t, t.microtasks[i], t.microtasks[j])
    {
      var k, l := t.microtasks[i], t.microtasks[j];
      QueueIsNumbered(s, k);
      assert i < |s.microtasks| && k == s.microtasks[i];
      assert k in multiset(s.microtasks) && WakeUp(s, k);
      if j < |s.microtasks| {
        assert Older(s, k, l);
        assert l in multiset(s.microtasks) && WakeUp(s, l);
      }
    }
  }

  lemma RunKeepsOrder(s: Ledger, n: nat)
    requires Inv(s) && Ordered(s) && n < |s.microtasks|
    ensures Ordered(RunTask(s, n))
  {
    hide Sum, Pending, VersionBumps, For, Accounted;
    var t, key := RunTask(s, n), s.microtasks[n];
    RunFindsWork(s, n);
    forall i, j | 0 <= i < j < |t.microtasks|
      ensures Older(t, t.microtasks[i], t.microtasks[j])
    {
      var i', j' := if i < n then i else i + 1, if j < n then j else j + 1;
      assert t.microtasks[i] == s.microtasks[i'] && t.microtasks[j] == s.microtasks[j'];
      assert Older(s, s.microtasks[i'], s.microtasks[j']);
    }
  }

  lemma {:induction false} ReachableOrder(events: seq<Event>)
    ensures Ordered(Execute(Initial(), events))
    decreases |events|
  {
    hide Inv, Post, RunTask;
    if events != [] {
      hide Ordered;
      var s, e := Execute(Initial(), events[..|events| - 1]), events[|events| - 1];
      ReachableOrder(events[..|events| - 1]);
      ReachableInv(events[..|events| - 1]);
      match e
      case PostEvent(key, delta) => PostKeepsOrder(s, key, delta);
      case RunEvent(i) => if i < |s.microtasks| { RunKeepsOrder(s, i); }
    }
  }

  /** No starvation: in every reachable state the flush at the head of the host's queue serves
      the oldest update that waits under any key. */
  lemma {:induction false} OldestIsServedNext(events: seq<Event>, key: string, i: nat)
    requires i < |Queue(Execute(Initial(), events), key)|
    ensures var s := Execute(Initial(), events);
            && s.microtasks != [] && Queue(s, s.microtasks[0]) != []
            && Queue(s, s.microtasks[0])[0].promise <= Queue(s, key)[i].promise
  {
    hide Execute, Sum, Pending, VersionBumps, For, Accounted;
    var s := Execute(Initial(), events);
    ReachableInv(events);
    ReachableOrder(events);
    assert WakeUp(s, key);
    assert key in multiset(s.microtasks);
    var j :| 0 <= j < |s.microtasks| && s.microtasks[j] == key;
    RunFindsWork(s, 0);
    QueueIsNumbered(s, key);
    assert j > 0 ==> Older(s, s.microtasks[0], s.microtasks[j]);
  }

  // ----- the class

  class CoalescingCASLedger {
    var accounts: map<string, Account>
    var pendingQueues: map<string, seq<Entry>>
    var processingKeys: set<string>
    var microtasks: seq<string>  // the host's microtask queue
    var totalCommittedUpdates: int
    var totalBatchesFlushed: int
    var resolved: seq<Entry>  // resolve callbacks, in the order they were called
    var nextPromise: nat
    ghost var posts: seq<Entry>
    ghost var flushes: seq<string>

    ghost function State(): Ledger
      reads this
    {
      Ledger(accounts, pendingQueues, processingKeys, microtasks,
             totalCommittedUpdates, totalBatchesFlushed, posts, resolved, flushes)
    }

    ghost predicate Valid()
      reads this
    {
      nextPromise == |posts| && Inv(State())
    }

    constructor ()
      ensures Valid() && State() == Initial()
    {
      hide PrimaryKey, Inv;
      accounts := map[PrimaryKey() := Account(1, 0)];
      pendingQueues, processingKeys, microtasks := map[], {}, [];
      totalCommittedUpdates, totalBatchesFlushed := 0, 0;
      resolved, nextPromise, posts, flushes := [], 0, [], [];
      new;
      InitialInv();
    }

    method PostDelta(key: string, delta: int) returns (promise: nat)
      requires Valid()
      modifies this
      ensures Valid() && State() == Post(old(State()), key, delta)
      ensures promise == |old(posts)| && posts == old(posts) + [Entry(promise, key, delta)]
      ensures Queue(State(), key) == old(Queue(State(), key)) + [Entry(promise, key, delta)]
    {
      PostKeepsInv(State(), key, delta);
      promise := nextPromise;
      var q := if key in pendingQueues then pendingQueues[key] else [];
      pendingQueues := pendingQueues[key := q + [Entry(promise, key, delta)]];
      posts := posts + [Entry(promise, key, delta)];
      nextPromise := nextPromise + 1;
      ScheduleFlush(key);
    }

    method ScheduleFlush(key: string)
      modifies this
      ensures State() == Schedule(old(State()), key) && nextPromise == old(nextPromise)
    {
      if key in processingKeys {
        return;
      }
      processingKeys := processingKeys + {key};
      microtasks := microtasks + [key];
    }

    method FlushKey(key: string)
      modifies this
      ensures State() == Flush(old(State()), key) && nextPromise == old(nextPromise)
    {
      hide Commit, Release;
      if key !in pendingQueues || pendingQueues[key] == [] {
        processingKeys := processingKeys - {key};
        return;
      }
      CommitBatch(key);
      ReleaseKey(key);
    }

    method CommitBatch(key: string)
      requires key in pendingQueues
      modifies this
      ensures State() == Commit(old(State()), key) && nextPromise == old(nextPromise)
      ensures key in pendingQueues
    {
      var batch := pendingQueues[key];
      WriteBatch(key);
      hide Commit, Sum;
      ResolveAll(batch);
    }

    /** The single write for the whole batch, before its promises are resolved. */
    method WriteBatch(key: string)
      requires key in pendingQueues
      modifies this
      ensures State() == Commit(old(State()), key).(resolved := old(resolved)) && nextPromise == old(nextPromise)
      ensures Commit(old(State()), key).resolved == old(resolved) + old(pendingQueues[key])
      ensures key in pendingQueues
    {
      hide Sum;
      var batch := pendingQueues[key];
      pendingQueues := pendingQueues[key := []];
      var totalDelta := Coalesce(batch);
      var acc := if key in accounts then accounts[key] else Account(1, 0);
      accounts := accounts[key := Account(acc.version + 1, acc.balance + totalDelta)];
      totalBatchesFlushed := totalBatchesFlushed + 1;
      totalCommittedUpdates := totalCommittedUpdates + |batch|;
      flushes := flushes + [key];
    }

    /** End of a flush: the mark is cleared and the queue looked at once more. */
    method ReleaseKey(key: string)
      requires key in pendingQueues
      modifies this
      ensures State() == Release(old(State()), key) && nextPromise == old(nextPromise)
    {
      processingKeys := processingKeys - {key};
      if |pendingQueues[key]| > 0 {
        ScheduleFlush(key);
      }
    }

    static method Coalesce(batch: seq<Entry>) returns (totalDelta: int)
      ensures totalDelta == Sum(batch)
    {
      totalDelta := 0;
      for i := 0 to |batch|
        invariant totalDelta == Sum(batch[..i])
      {
        totalDelta := totalDelta + batch[i].delta;
        assert batch[..i + 1][..i] == batch[..i];
      }
      assert batch[..|batch|] == batch;
    }

    method ResolveAll(batch: seq<Entry>)
      modifies this`resolved
      ensures resolved == old(resolved) + batch
    {
      for i := 0 to |batch|
        invariant resolved == old(resolved) + batch[..i]
      {
        resolved := resolved + [batch[i]];
      }
    }

    /** The host runs one queued microtask. */
    method RunMicrotask(i: nat)
      requires Valid() && i < |microtasks|
      modifies this
      ensures Valid() && State() == RunTask(old(State()), i)
    {
      RunKeepsInv(State(), i);
      var key := microtasks[i];
      microtasks := microtasks[..i] + microtasks[i + 1..];
      FlushKey(key);
    }

    /** The host runs microtasks until none is left. */
    method RunToQuiescence()
      requires Valid()
      modifies this
      ensures Valid() && State() == Drain(old(State()))
    {
      while microtasks != []
        invariant Valid() && Drain(State()) == Drain(old(State()))
        decreases |microtasks|
      {
        RunMicrotask(0);
      }
    }
  }
}
