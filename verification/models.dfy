/**
  The `subscriptions` table: one row per grant, never updated in place.
  The table is modelled as a sequence of rows in insertion order.
 */
module Models {
  import opened Wrappers

  /**
    One subscription row. `userId` is an unbounded integer and need not be
    unique across rows; `expiresAt` is a naive-UTC instant in seconds and is
    never NULL, so every user that has a row has a maximum expiry.
   */
  datatype Row = Row(id: int, userId: int, plan: string, expiresAt: int)

  type Store = seq<Row>

  /** The primary key: no two rows share an `id`. */
  predicate UniqueIds(s: Store) {
    forall i, j :: 0 <= i < j < |s| ==> s[i].id != s[j].id
  }

  predicate HasUser(s: Store, u: int) {
    exists i :: 0 <= i < |s| && s[i].userId == u
  }

  /** The key the database assigns to the next insert: a key no existing row has. */
  function NextId(s: Store): (id: int)
    ensures forall i :: 0 <= i < |s| ==> s[i].id < id
  {
    if s == [] then 1
    else
      var rest := NextId(s[..|s| - 1]);
      if s[|s| - 1].id + 1 > rest then s[|s| - 1].id + 1 else rest
  }

  /** `s'` is `s` with one more row, for `userId` on `plan` until `expiresAt`, at the end. */
  predicate Appended(s: Store, s': Store, userId: int, plan: string, expiresAt: int) {
    && |s'| == |s| + 1 && s'[..|s|] == s
    && s'[|s|].userId == userId && s'[|s|].plan == plan && s'[|s|].expiresAt == expiresAt
  }

  /** `session.add(Subscription(...)); session.commit()`: appends one row with a fresh key. */
  function Insert(s: Store, userId: int, plan: string, expiresAt: int): (s': Store)
    ensures Appended(s, s', userId, plan, expiresAt)
    ensures s'[|s|].id !in set i | 0 <= i < |s| :: s[i].id
    ensures UniqueIds(s) ==> UniqueIds(s')
  {
    s + [Row(NextId(s), userId, plan, expiresAt)]
  }

  /** The rows of `s` that belong to one of `users`, in table order (`WHERE user_id IN users`). */
  function Restrict(s: Store, users: set<int>): (r: Store)
    ensures |r| <= |s|
    ensures forall x :: x in r <==> x in s && x.userId in users
    ensures UniqueIds(s) ==> UniqueIds(r)
  {
    if s == [] then []
    else
      var rest := Restrict(s[1..], users);
      assert forall x :: x in s <==> x == s[0] || x in s[1..];
      assert UniqueIds(s) ==> forall x :: x in rest ==> x.id != s[0].id by {
        if UniqueIds(s) {
          forall x | x in rest
            ensures x.id != s[0].id
          {
            var k :| 0 <= k < |s[1..]| && s[1..][k] == x;
            assert s[k + 1] == x;
          }
        }
      }
      if s[0].userId in users then [s[0]] + rest else rest
  }

  /**
    `.order_by(expires_at.desc()).first()` over one user's rows: a row with the
    greatest expiry (the first such row in table order), or None when the user
    has no rows.
   */
  function Latest(s: Store, u: int): (r: Option<Row>)
    ensures r.None? <==> !HasUser(s, u)
    ensures r.Some? ==> r.value in s && r.value.userId == u
    ensures r.Some? ==> forall i :: 0 <= i < |s| && s[i].userId == u ==> s[i].expiresAt <= r.value.expiresAt
  {
    if s == [] then None
    else
      var rest := Latest(s[1..], u);
      assert forall i :: 1 <= i < |s| ==> s[i] == s[1..][i - 1];
      if s[0].userId == u && (rest.None? || s[0].expiresAt >= rest.value.expiresAt) then Some(s[0])
      else rest
  }

  /** `func.max(expires_at)` for one user. */
  function MaxExpiry(s: Store, u: int): int
    requires HasUser(s, u)
  {
    Latest(s, u).value.expiresAt
  }
}
