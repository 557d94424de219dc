/**
  What one sweep tick guarantees: who is revoked, with which plan, which rows
  survive, and what a failed tick leaves behind.
 */
module SweepFacts {
  import opened Wrappers
  import opened Models
  import opened Scheduler

  function SetOf(us: seq<int>): set<int> {
    set u | u in us
  }

  /** The users whose revocation callback fired in a tick. */
  function Revoked(t: TickResult): set<int> {
    set i | 0 <= i < |t.revocations| :: t.revocations[i].userId
  }

  /** The users that have a row in force at `now`. */
  function LiveUsers(s: Store, now: int): set<int> {
    set i | 0 <= i < |s| && s[i].expiresAt > now :: s[i].userId
  }

  /** The `(user, plan)` pairs handed to the callback, ignoring whether it threw. */
  function Calls(revs: seq<Revocation>): seq<(int, string)> {
    seq(|revs|, i requires 0 <= i < |revs| => (revs[i].userId, revs[i].plan))
  }

  lemma LiveUsersSpec(s: Store, now: int, u: int)
    ensures u in LiveUsers(s, now) <==> ActiveUser(s, u, now)
  {
    if ActiveUser(s, u, now) {
      var i :| 0 <= i < |s| && s[i].userId == u && s[i].expiresAt > now;
      assert s[i].userId in LiveUsers(s, now);
    }
  }

  /** Pruning nobody leaves the store as it is. */
  lemma {:induction false} PruneNobody(s: Store, now: int)
    ensures Prune(s, {}, now) == s
  {
    if s != [] {
      PruneNobody(s[1..], now);
    }
  }

  /** Pruning twice is pruning once by the union of the user sets. */
  lemma {:induction false} PruneTwice(s: Store, a: set<int>, b: set<int>, now: int)
    ensures Prune(Prune(s, a, now), b, now) == Prune(s, a + b, now)
  {
    if s != [] {
      PruneTwice(s[1..], a, b, now);
    }
  }

  /** Pruning other users' rows does not change which row of `u` is the latest. */
  lemma {:induction false} PruneKeepsLatest(s: Store, users: set<int>, now: int, u: int)
    requires u !in users
    ensures Latest(Prune(s, users, now), u) == Latest(s, u)
  {
    if s != [] {
      PruneKeepsLatest(s[1..], users, now, u);
      if !(s[0].userId in users && s[0].expiresAt <= now) {
        assert Prune(s, users, now)[1..] == Prune(s[1..], users, now);
      }
    }
  }

  /** A user counts as expired exactly when none of their rows is in force at `now`. */
  lemma ExpiredIffNoLiveRow(s: Store, now: int, u: int)
    ensures u in ExpiredUsers(s, now) <==> HasUser(s, u) && !ActiveUser(s, u, now)
  {
    if HasUser(s, u) && ActiveUser(s, u, now) {
      var i :| 0 <= i < |s| && s[i].userId == u && s[i].expiresAt > now;
      assert MaxExpiry(s, u) >= s[i].expiresAt;
    }
    if HasUser(s, u) && !ActiveUser(s, u, now) {
      var row := Latest(s, u).value;
      var i :| 0 <= i < |s| && s[i] == row;
    }
  }

  /**
    Without faults, the loop from the `k`-th expired user on fires one
    callback per remaining user, in order, with the plan of that user's latest
    row in the store the tick started from, and deletes the lapsed rows of all
    listed users.
   */
  lemma {:induction false} ExpireHealthy(s0: Store, now: int, us: seq<int>, k: nat, raises: set<int>)
    requires k <= |us| && Distinct(us)
    ensures var run := Expire(Prune(s0, SetOf(us[..k]), now), now, us, k, raises, Healthy);
      && !run.aborted
      && run.store == Prune(s0, SetOf(us), now)
      && |run.revocations| == |us| - k
      && forall i :: 0 <= i < |us| - k ==>
           run.revocations[i] == Revocation(us[k + i], PlanOf(s0, us[k + i]), us[k + i] in raises)
    decreases |us| - k
  {
    var s := Prune(s0, SetOf(us[..k]), now);
    if k == |us| {
      assert us[..k] == us;
    } else {
      var u := us[k];
      assert u !in SetOf(us[..k]);
      PruneKeepsLatest(s0, SetOf(us[..k]), now, u);
      PruneTwice(s0, SetOf(us[..k]), {u}, now);
      assert us[..k + 1] == us[..k] + [u];
      assert SetOf(us[..k]) + {u} == SetOf(us[..k + 1]);
      ExpireHealthy(s0, now, us, k + 1, raises);
      var rest := Expire(DeleteLapsed(s, u, now), now, us, k + 1, raises, Healthy);
      var run := Expire(s, now, us, k, raises, Healthy);
      assert run.revocations == [Revocation(u, PlanOf(s0, u), u in raises)] + rest.revocations;
      forall i | 0 <= i < |us| - k
        ensures run.revocations[i] == Revocation(us[k + i], PlanOf(s0, us[k + i]), us[k + i] in raises)
      {
        if i > 0 {
          assert run.revocations[i] == rest.revocations[i - 1];
        }
      }
    }
  }

  /**
    When every row's fate is decided by its user alone (the rows of `gone`
    lapse, the other users are `kept`), pruning `gone` keeps exactly the rows
    of `kept`.
   */
  lemma {:induction false} PruneIsRestrict(s: Store, gone: set<int>, kept: set<int>, now: int)
    requires forall i :: 0 <= i < |s| ==> ((s[i].userId in gone && s[i].expiresAt <= now) <==> s[i].userId !in kept)
    ensures Prune(s, gone, now) == Restrict(s, kept)
  {
    if s != [] {
      assert forall i :: 1 <= i < |s| ==> s[1..][i - 1] == s[i];
      PruneIsRestrict(s[1..], gone, kept, now);
    }
  }

  /** `ExpireHealthy` from the first expired user, where nothing is pruned yet. */
  lemma HealthyRunFromStart(s: Store, now: int, us: seq<int>, raises: set<int>)
    requires Distinct(us)
    ensures var run := Expire(s, now, us, 0, raises, Healthy);
      && !run.aborted
      && run.store == Prune(s, SetOf(us), now)
      && |run.revocations| == |us|
      && forall i :: 0 <= i < |us| ==> run.revocations[i] == Revocation(us[i], PlanOf(s, us[i]), us[i] in raises)
  {
    assert SetOf(us[..0]) == {};
    PruneNobody(s, now);
    ExpireHealthy(s, now, us, 0, raises);
  }

  /** After the scan, a row lapses in the tick exactly when its user has no row in force. */
  lemma ExpiredRowsAreDeadUsers(s: Store, now: int)
    ensures forall i :: 0 <= i < |s| ==>
      ((s[i].userId in SetOf(ExpiredUsers(s, now)) && s[i].expiresAt <= now) <==> s[i].userId !in LiveUsers(s, now))
  {
    forall i | 0 <= i < |s|
      ensures (s[i].userId in SetOf(ExpiredUsers(s, now)) && s[i].expiresAt <= now) <==> s[i].userId !in LiveUsers(s, now)
    {
      var u := s[i].userId;
      assert HasUser(s, u);
      ExpiredIffNoLiveRow(s, now, u);
      LiveUsersSpec(s, now, u);
    }
  }

  /** The rows a healthy tick commits: those of users with a row still in force. */
  lemma TickSurvivors(s: Store, now: int, raises: set<int>)
    ensures Tick(s, now, raises, Healthy).store == Restrict(s, LiveUsers(s, now))
  {
    var expired := ExpiredUsers(s, now);
    ExpiredRowsAreDeadUsers(s, now);
    PruneIsRestrict(s, SetOf(expired), LiveUsers(s, now), now);
    if expired == [] {
      assert SetOf(expired) == {};
      PruneNobody(s, now);
    } else {
      HealthyRunFromStart(s, now, expired, raises);
    }
  }

  /**
    A healthy tick at `now` fires one callback per expired user, in the order
    of the scan, each with that user's latest plan, and commits unless there
    was nobody to expire.
   */
  lemma TickHealthyCalls(s: Store, now: int, raises: set<int>)
    ensures var t := Tick(s, now, raises, Healthy);
      var expired := ExpiredUsers(s, now);
      && |t.revocations| == |expired|
      && (forall i :: 0 <= i < |expired| ==>
            t.revocations[i] == Revocation(expired[i], PlanOf(s, expired[i]), expired[i] in raises))
      && t.outcome == (if expired == [] then NoExpiredUsers else Committed)
  {
    var expired := ExpiredUsers(s, now);
    if expired != [] {
      HealthyRunFromStart(s, now, expired, raises);
    }
  }

  /** The callback fires exactly once for each user without a row in force, and for nobody else. */
  lemma RevokedExactlyOnce(s: Store, now: int, raises: set<int>)
    ensures var t := Tick(s, now, raises, Healthy);
      && (forall u :: u in Revoked(t) <==> HasUser(s, u) && !ActiveUser(s, u, now))
      && (forall i, j :: 0 <= i < j < |t.revocations| ==> t.revocations[i].userId != t.revocations[j].userId)
  {
    var t := Tick(s, now, raises, Healthy);
    var expired := ExpiredUsers(s, now);
    TickHealthyCalls(s, now, raises);
    forall u
      ensures u in Revoked(t) <==> HasUser(s, u) && !ActiveUser(s, u, now)
    {
      ExpiredIffNoLiveRow(s, now, u);
      if u in expired {
        var i :| 0 <= i < |expired| && expired[i] == u;
        assert t.revocations[i].userId == u;
      }
    }
  }

  /** The plan handed to the callback is the plan of a row of that user with the greatest expiry. */
  lemma RevokedPlanIsLatest(s: Store, now: int, raises: set<int>)
    ensures var t := Tick(s, now, raises, Healthy);
      forall i :: 0 <= i < |t.revocations| ==>
        exists row :: (row in s && row.userId == t.revocations[i].userId && row.plan == t.revocations[i].plan
          && forall j :: 0 <= j < |s| && s[j].userId == row.userId ==> s[j].expiresAt <= row.expiresAt)
  {
    var t := Tick(s, now, raises, Healthy);
    var expired := ExpiredUsers(s, now);
    TickHealthyCalls(s, now, raises);
    forall i | 0 <= i < |t.revocations|
      ensures exists row :: (row in s && row.userId == t.revocations[i].userId && row.plan == t.revocations[i].plan
          && forall j :: 0 <= j < |s| && s[j].userId == row.userId ==> s[j].expiresAt <= row.expiresAt)
    {
      assert expired[i] in expired;
      var row := Latest(s, expired[i]).value;
      assert row in s;
    }
  }

  /**
    Deletion touches only lapsed rows of expired users: a row survives exactly
    when its user still has a row in force, so every row in force survives.
   */
  lemma TickKeepsLiveRows(s: Store, now: int, raises: set<int>)
    ensures var t := Tick(s, now, raises, Healthy);
      && (forall x :: x in t.store <==> x in s && ActiveUser(s, x.userId, now))
      && (forall x :: x in s && x.expiresAt > now ==> x in t.store)
  {
    TickSurvivors(s, now, raises);
    forall x | x in s
      ensures x.userId in LiveUsers(s, now) <==> ActiveUser(s, x.userId, now)
    {
      LiveUsersSpec(s, now, x.userId);
    }
    forall x | x in s && x.expiresAt > now
      ensures ActiveUser(s, x.userId, now)
    {
      var i :| 0 <= i < |s| && s[i] == x;
    }
  }

  /** A revoked user is left with no rows at all. */
  lemma RevokedUserHasNoRows(s: Store, now: int, raises: set<int>, u: int)
    requires u in Revoked(Tick(s, now, raises, Healthy))
    ensures !HasUser(Tick(s, now, raises, Healthy).store, u)
  {
    var t := Tick(s, now, raises, Healthy);
    RevokedExactlyOnce(s, now, raises);
    TickKeepsLiveRows(s, now, raises);
    forall i | 0 <= i < |t.store|
      ensures t.store[i].userId != u
    {
      assert t.store[i] in t.store;
    }
  }

  /** A database error strikes the loop over `n` expired users. */
  predicate StrikesLoop(fault: Fault, n: nat) {
    (fault.LookupFails? || fault.DeleteFails?) && fault.k < n
  }

  /**
    Under a fault, the loop fires a prefix of the healthy loop's callbacks:
    the ones before the failing lookup, or up to and including the user whose
    DELETE fails. A fault that does not strike leaves the run as it was.
   */
  lemma {:induction false} ExpireUnderFault(s: Store, now: int, us: seq<int>, k: nat, raises: set<int>, fault: Fault)
    requires k <= |us|
    ensures var bad := Expire(s, now, us, k, raises, fault);
      var good := Expire(s, now, us, k, raises, Healthy);
      && bad.revocations <= good.revocations
      && (bad.aborted <==> (fault.LookupFails? || fault.DeleteFails?) && k <= fault.k < |us|)
      && (!bad.aborted ==> bad == good)
      && (fault.LookupFails? && k <= fault.k < |us| ==> |bad.revocations| == fault.k - k)
      && (fault.DeleteFails? && k <= fault.k < |us| ==> |bad.revocations| == fault.k - k + 1)
    decreases |us| - k
  {
    if k < |us| && fault != LookupFails(k) && fault != DeleteFails(k) {
      ExpireUnderFault(DeleteLapsed(s, us[k], now), now, us, k + 1, raises, fault);
    }
  }

  /**
    Any failure during a tick rolls the store back to its state before the
    tick; the callbacks fired before the failure are a prefix of those of a
    healthy tick. A tick that commits is exactly the healthy tick.
   */
  lemma TickUnderFault(s: Store, now: int, raises: set<int>, fault: Fault)
    ensures var t := Tick(s, now, raises, fault);
      var h := Tick(s, now, raises, Healthy);
      var n := |ExpiredUsers(s, now)|;
      && t.revocations <= h.revocations
      && (t.outcome == RolledBack <==> fault == ScanFails || (n > 0 && (fault == CommitFails || StrikesLoop(fault, n))))
      && (t.outcome != Committed ==> t.store == s)
      && (t.outcome == Committed ==> t == h)
      && (StrikesLoop(fault, n) && fault.LookupFails? ==> |t.revocations| == fault.k)
      && (StrikesLoop(fault, n) && fault.DeleteFails? ==> |t.revocations| == fault.k + 1)
  {
    var expired := ExpiredUsers(s, now);
    if expired != [] {
      ExpireUnderFault(s, now, expired, 0, raises, fault);
    }
  }

  /** A tick keeps the primary key unique. */
  lemma TickKeepsUniqueIds(s: Store, now: int, raises: set<int>, fault: Fault)
    requires UniqueIds(s)
    ensures UniqueIds(Tick(s, now, raises, fault).store)
  {
    TickUnderFault(s, now, raises, fault);
    TickSurvivors(s, now, raises);
  }

  lemma CallsCons(r: Revocation, rest: seq<Revocation>)
    ensures Calls([r] + rest) == [(r.userId, r.plan)] + Calls(rest)
  {
    assert forall i :: 1 <= i < |rest| + 1 ==> ([r] + rest)[i] == rest[i - 1];
  }

  /** Whether the callback throws changes nothing but the record that it threw. */
  lemma {:induction false} ExpireIgnoresRaises(s: Store, now: int, us: seq<int>, k: nat, raises: set<int>, raises': set<int>, fault: Fault)
    requires k <= |us|
    ensures var a := Expire(s, now, us, k, raises, fault);
      var b := Expire(s, now, us, k, raises', fault);
      && Calls(a.revocations) == Calls(b.revocations)
      && a.store == b.store && a.aborted == b.aborted
      && forall i :: 0 <= i < |a.revocations| ==> a.revocations[i].raised == (a.revocations[i].userId in raises)
    decreases |us| - k
  {
    if k < |us| && fault != LookupFails(k) && fault != DeleteFails(k) {
      var u := us[k];
      ExpireIgnoresRaises(DeleteLapsed(s, u, now), now, us, k + 1, raises, raises', fault);
      var rest := Expire(DeleteLapsed(s, u, now), now, us, k + 1, raises, fault);
      var rest' := Expire(DeleteLapsed(s, u, now), now, us, k + 1, raises', fault);
      CallsCons(Revocation(u, PlanOf(s, u), u in raises), rest.revocations);
      CallsCons(Revocation(u, PlanOf(s, u), u in raises'), rest'.revocations);
    }
  }

  /**
    A callback that throws neither stops the processing of later users nor
    prevents that user's deletions: the calls made, the store and the outcome
    are the same whichever callbacks throw.
   */
  lemma TickIgnoresRaises(s: Store, now: int, raises: set<int>, raises': set<int>, fault: Fault)
    ensures var a := Tick(s, now, raises, fault);
      var b := Tick(s, now, raises', fault);
      && Calls(a.revocations) == Calls(b.revocations)
      && a.store == b.store && a.outcome == b.outcome
      && forall i :: 0 <= i < |a.revocations| ==> a.revocations[i].raised == (a.revocations[i].userId in raises)
  {
    var expired := ExpiredUsers(s, now);
    if fault != ScanFails && expired != [] {
      ExpireIgnoresRaises(s, now, expired, 0, raises, raises', fault);
    }
  }

  /**
    After a healthy tick, a user who had rows keeps a row in force exactly when
    no revocation fired for them in that tick.
   */
  lemma StoreAgreesWithRevocations(s: Store, now: int, raises: set<int>, u: int)
    requires HasUser(s, u)
    ensures var t := Tick(s, now, raises, Healthy);
      ActiveUser(t.store, u, now) <==> u !in Revoked(t)
  {
    var t := Tick(s, now, raises, Healthy);
    RevokedExactlyOnce(s, now, raises);
    TickKeepsLiveRows(s, now, raises);
    if ActiveUser(s, u, now) {
      var i :| 0 <= i < |s| && s[i].userId == u && s[i].expiresAt > now;
      assert s[i] in t.store;
      var j :| 0 <= j < |t.store| && t.store[j] == s[i];
    }
    if ActiveUser(t.store, u, now) {
      var j :| 0 <= j < |t.store| && t.store[j].userId == u && t.store[j].expiresAt > now;
      assert t.store[j] in t.store;
      assert HasUser(t.store, u);
    }
  }

  /** When every user still has a row in force, a tick fires nothing and changes nothing, whatever fails. */
  lemma NoExpiredNoChange(s: Store, now: int, raises: set<int>, fault: Fault)
    requires forall u :: HasUser(s, u) ==> ActiveUser(s, u, now)
    ensures Tick(s, now, raises, fault).revocations == []
    ensures Tick(s, now, raises, fault).store == s
  {
    var expired := ExpiredUsers(s, now);
    if expired != [] {
      ExpiredIffNoLiveRow(s, now, expired[0]);
      assert false;
    }
  }

  /** A second healthy tick at the same instant finds nobody to expire. */
  lemma SecondTickIsNoop(s: Store, now: int, raises: set<int>, raises': set<int>, fault: Fault)
    ensures var t := Tick(s, now, raises, Healthy);
      && Tick(t.store, now, raises', fault).revocations == []
      && Tick(t.store, now, raises', fault).store == t.store
  {
    var t := Tick(s, now, raises, Healthy);
    TickKeepsLiveRows(s, now, raises);
    forall u | HasUser(t.store, u)
      ensures ActiveUser(t.store, u, now)
    {
      var i :| 0 <= i < |t.store| && t.store[i].userId == u;
      assert t.store[i] in t.store;
      var k :| 0 <= k < |s| && s[k].userId == u && s[k].expiresAt > now;
      assert s[k] in t.store;
      var j :| 0 <= j < |t.store| && t.store[j] == s[k];
    }
    NoExpiredNoChange(t.store, now, raises', fault);
  }

  /** The boundary is non-strict: a user whose only row expires exactly at `now` is revoked and the row deleted. */
  lemma RowExpiringNowIsSwept(id: int, u: int, plan: string, now: int, raises: set<int>)
    ensures Tick([Row(id, u, plan, now)], now, raises, Healthy)
         == TickResult([Revocation(u, plan, u in raises)], [], Committed)
  {
    var s := [Row(id, u, plan, now)];
    assert s[..0] == [] && s[1..] == [];
    assert Users(s) == [u];
    assert Latest(s, u) == Some(s[0]);
    assert HasUser(s, u);
    assert [u][1..] == [];
    assert MaxExpiry(s, [u][0]) == now;
    assert Partition(s, [], now) == ([], []);
    var p := Partition(s, [u], now);
    assert MaxExpiry(s, [u][0]) <= now;
    assert p.0 == [u];
    assert ExpiredUsers(s, now) == [u];
    assert Prune(s[1..], {u}, now) == [];
    assert DeleteLapsed(s, u, now) == [];
    assert PlanOf(s, u) == plan;
    assert Expire([], now, [u], 1, raises, Healthy) == Run([], [], false);
    assert Expire(s, now, [u], 0, raises, Healthy) == Run([Revocation(u, plan, u in raises)], [], false);
  }
}
