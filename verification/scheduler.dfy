/**
  The periodic expiry sweep (`_remove_expired_subscriptions`) and the
  singleton guard of `start_scheduler`.

  One tick reads the maximum expiry of every user, splits users into expired
  (`max <= now`) and active, and for each expired user fires the revocation
  callback with the plan of their latest row and deletes their rows with
  `expires_at <= now`. All deletions commit together or not at all. The
  callback is an external action: here it is an emitted `Revocation`, and the
  set `raises` names the users for whom it throws (the throw is caught).
 */
module Scheduler {
  import opened Wrappers
  import opened Models

  /** A user has a row that is still in force at `now`. */
  predicate ActiveUser(s: Store, u: int, now: int) {
    exists i :: 0 <= i < |s| && s[i].userId == u && s[i].expiresAt > now
  }

  predicate Distinct(us: seq<int>) {
    forall i, j :: 0 <= i < j < |us| ==> us[i] != us[j]
  }

  /** The `GROUP BY user_id` keys, in order of first appearance. */
  function Users(s: Store): (us: seq<int>)
    ensures forall u :: u in us <==> HasUser(s, u)
    ensures Distinct(us)
  {
    if s == [] then []
    else
      var prefix := s[..|s| - 1];
      var rest := Users(prefix);
      var u := s[|s| - 1].userId;
      assert forall v :: HasUser(s, v) <==> HasUser(prefix, v) || v == u by {
        forall v | HasUser(s, v) && v != u
          ensures HasUser(prefix, v)
        {
          var i :| 0 <= i < |s| && s[i].userId == v;
          assert prefix[i].userId == v;
        }
        forall v | HasUser(prefix, v)
          ensures HasUser(s, v)
        {
          var i :| 0 <= i < |prefix| && prefix[i].userId == v;
          assert s[i].userId == v;
        }
      }
      if u in rest then rest else rest + [u]
  }

  /**
    The partition into expired and active users: each listed user goes to `expired` when their
    maximum expiry is at or before `now`, and to `active` otherwise.
   */
  function Partition(s: Store, us: seq<int>, now: int): (r: (seq<int>, seq<int>))
    requires forall u :: u in us ==> HasUser(s, u)
    ensures forall u :: u in r.0 <==> u in us && HasUser(s, u) && MaxExpiry(s, u) <= now
    ensures forall u :: u in r.1 <==> u in us && HasUser(s, u) && MaxExpiry(s, u) > now
    ensures Distinct(us) ==> Distinct(r.0) && Distinct(r.1)
  {
    if us == [] then ([], [])
    else
      var rest := Partition(s, us[1..], now);
      assert forall u :: u in us <==> u == us[0] || u in us[1..];
      if MaxExpiry(s, us[0]) <= now then ([us[0]] + rest.0, rest.1)
      else (rest.0, [us[0]] + rest.1)
  }

  /** `expired_uids` of one tick. */
  function ExpiredUsers(s: Store, now: int): seq<int> {
    Partition(s, Users(s), now).0
  }

  /** The plan handed to the callback: that of the latest row, `"-"` when there is none. */
  function PlanOf(s: Store, u: int): string {
    match Latest(s, u)
    case Some(row) => row.plan
    case None => "-"
  }

  /** Drops the rows of `users` that expire at or before `now`, keeping table order. */
  function Prune(s: Store, users: set<int>, now: int): (r: Store)
    ensures forall x :: x in r <==> x in s && !(x.userId in users && x.expiresAt <= now)
  {
    if s == [] then []
    else
      var rest := Prune(s[1..], users, now);
      assert forall x :: x in s <==> x == s[0] || x in s[1..];
      if s[0].userId in users && s[0].expiresAt <= now then rest else [s[0]] + rest
  }

  /** The DELETE of one expired user's rows with `expires_at <= now`. */
  function DeleteLapsed(s: Store, u: int, now: int): Store {
    Prune(s, {u}, now)
  }

  /** One call of `on_expire(uid, last_plan)`; `raised` records a caught exception. */
  datatype Revocation = Revocation(userId: int, plan: string, raised: bool)

  /** Where a database error strikes during a tick, if anywhere. */
  datatype Fault =
    | Healthy
    | ScanFails             // the aggregate query
    | LookupFails(k: nat)   // the latest-row query of the k-th expired user
    | DeleteFails(k: nat)   // the DELETE of the k-th expired user, after its callback
    | CommitFails

  datatype Outcome = Committed | NoExpiredUsers | RolledBack

  datatype TickResult = TickResult(revocations: seq<Revocation>, store: Store, outcome: Outcome)

  /** The state of the loop over expired users: callbacks fired, session state, whether an error escaped. */
  datatype Run = Run(revocations: seq<Revocation>, store: Store, aborted: bool)

  /** Every row of `t` is a row of `s`: only deletions happened. */
  predicate Within(t: Store, s: Store) {
    forall x :: x in t ==> x in s
  }

  /** The callbacks `revs` went to `us[k]`, `us[k + 1]`, ... in that order, one each. */
  predicate CallsInOrder(revs: seq<Revocation>, us: seq<int>, k: nat) {
    && k + |revs| <= |us|
    && forall i :: 0 <= i < |revs| ==> revs[i].userId == us[k + i]
  }

  /**
    The loop over expired users, from the `k`-th on: callbacks go to the
    users in list order, one each, and the loop only deletes rows; it stops
    short of the end exactly when an error escapes.
   */
  function Expire(s: Store, now: int, us: seq<int>, k: nat, raises: set<int>, fault: Fault): (r: Run)
    requires k <= |us|
    ensures CallsInOrder(r.revocations, us, k)
    ensures !r.aborted ==> |r.revocations| == |us| - k
    ensures Within(r.store, s)
    decreases |us| - k
  {
    if k == |us| then Run([], s, false)
    else if fault == LookupFails(k) then Run([], s, true)
    else
      var u := us[k];
      var call := Revocation(u, PlanOf(s, u), u in raises);
      if fault == DeleteFails(k) then Run([call], s, true)
      else
        var rest := Expire(DeleteLapsed(s, u, now), now, us, k + 1, raises, fault);
        Run([call] + rest.revocations, rest.store, rest.aborted)
  }

  /**
    One tick at time `now`. A failed tick rolls the session back, so the
    store is the one it started from; callbacks already fired stay fired.
   */
  function Tick(s: Store, now: int, raises: set<int>, fault: Fault): (t: TickResult)
    ensures t.outcome != Committed ==> t.store == s
    ensures Within(t.store, s)
    ensures forall i :: 0 <= i < |t.revocations| ==> t.revocations[i].userId in ExpiredUsers(s, now)
    ensures t.outcome == NoExpiredUsers <==> fault != ScanFails && |ExpiredUsers(s, now)| == 0
  {
    if fault == ScanFails then TickResult([], s, RolledBack)
    else
      var expired := ExpiredUsers(s, now);
      if expired == [] then TickResult([], s, NoExpiredUsers)
      else
        var run := Expire(s, now, expired, 0, raises, fault);
        if run.aborted || fault == CommitFails then TickResult(run.revocations, s, RolledBack)
        else TickResult(run.revocations, run.store, Committed)
  }

  /** A scheduler instance with its jobs (interval in seconds). */
  datatype Job = Job(id: string, intervalSeconds: int)
  datatype BackgroundScheduler = BackgroundScheduler(jobs: seq<Job>)

  const SweepJobId: string := "remove_expired_subscriptions"

  /**
    `start_scheduler`: with a scheduler already in the module-level slot it
    returns that one untouched; otherwise it creates one holding the single
    sweep job. The result is also the new content of the slot.
   */
  function StartScheduler(current: Option<BackgroundScheduler>, intervalSeconds: int): (sch: BackgroundScheduler)
    ensures current.Some? ==> sch == current.value
    ensures current.None? ==> sch.jobs == [Job(SweepJobId, intervalSeconds)]
  {
    match current
    case Some(existing) => existing
    case None => BackgroundScheduler([Job(SweepJobId, intervalSeconds)])
  }

  /**
    The singleton guard: once a scheduler exists, starting again returns it
    unchanged, so there is only ever the one sweep job.
   */
  lemma StartSchedulerOnce(current: Option<BackgroundScheduler>, interval: int, interval': int)
    ensures var first := StartScheduler(current, interval);
      && StartScheduler(Some(first), interval') == first
      && (current.None? ==> |first.jobs| == 1 && first.jobs[0].id == SweepJobId && first.jobs[0].intervalSeconds == interval)
  {
  }
}
