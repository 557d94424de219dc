/**
  The earlier `payment_webhook` of bot.py: the same steps as entry.py but
  without guards. `int(orderId)` may raise, a missing or non-string
  description raises, and an unknown plan is still inserted with 0 days.
 */
module WebhookDraft {
  import opened Wrappers
  import opened PyText
  import opened PyJson
  import opened Models
  import opened Webhook

  /**
    `request.json or {}`: None when decoding raises (Flask rejects a body that
    is not JSON with a client error), otherwise the dictionary or, for any
    other truthy JSON value, a value on which `.get` raises.
   */
  function DraftBody(body: Option<Json>): Option<Option<map<string, Json>>> {
    if body.None? then None else Some(BodyFields(body))
  }

  /** The draft's only guards: `int(orderId)` succeeds and the description is a string with a first word. */
  predicate DraftAdmitted(data: map<string, Json>) {
    var description := GetOr(data, "description", JStr(""));
    && ToInt(Get(data, "orderId")).Some?
    && description.JStr? && |Split(description.s)| > 0
  }

  function DraftUser(data: map<string, Json>): int
    requires DraftAdmitted(data)
  {
    ToInt(Get(data, "orderId")).value
  }

  function DraftPlan(data: map<string, Json>): string
    requires DraftAdmitted(data)
  {
    Split(GetOr(data, "description", JStr("")).s)[0]
  }

  /** What the draft does with a Closed notification once its body is a dictionary. */
  function DraftClosed(s: Store, data: map<string, Json>, now: int, commitOk: bool): (r: Response)
    ensures r.unban.None? ==> r.store == s
    ensures r.unban.Some? ==>
      && r.status == Ok200 && DraftAdmitted(data) && r.unban == Some(DraftUser(data))
      && Appended(s, r.store, DraftUser(data), DraftPlan(data), now + PlanDays(DraftPlan(data)) * SecondsPerDay)
    ensures ToInt(Get(data, "orderId")).None? ==> r == Response(ServerError500, s, None)
    ensures var description := GetOr(data, "description", JStr(""));
      !description.JStr? || |Split(description.s)| == 0 ==> r == Response(ServerError500, s, None)
    ensures UniqueIds(s) ==> UniqueIds(r.store)
  {
    match ToInt(Get(data, "orderId"))
    case None => Response(ServerError500, s, None)
    case Some(userId) =>
      var description := GetOr(data, "description", JStr(""));
      if !description.JStr? || |Split(description.s)| == 0 then Response(ServerError500, s, None)
      else
        CommitGrant(s, userId, Split(description.s)[0], now, commitOk)
  }

  /** The handler of bot.py; `verify`, `now` and `commitOk` as for entry.py. */
  function GrantV1(s: Store, req: Request, now: int, verify: (seq<bv8>, string) -> bool, commitOk: bool): (r: Response)
    ensures !SignatureOk(req, verify) ==> r == Response(BadRequest400, s, None)
    ensures r.unban.None? ==> r.store == s
    ensures r.unban.Some? ==>
      && r.status == Ok200
      && |r.store| == |s| + 1 && r.store[..|s|] == s
      && r.store[|s|].userId == r.unban.value
      && r.store[|s|].expiresAt == now + PlanDays(r.store[|s|].plan) * SecondsPerDay
    ensures SignatureOk(req, verify) && req.body.None? ==> r == Response(BadRequest400, s, None)
    ensures SignatureOk(req, verify) && req.body.Some? && BodyFields(req.body).None? ==> r == Response(ServerError500, s, None)
    ensures SignatureOk(req, verify) && req.body.Some? && BodyFields(req.body).Some? && !IsClosed(BodyFields(req.body).value)
      ==> r == Response(Ok200, s, None)
    ensures UniqueIds(s) ==> UniqueIds(r.store)
  {
    if !SignatureOk(req, verify) then Response(BadRequest400, s, None)
    else
      match DraftBody(req.body)
      case None => Response(BadRequest400, s, None)
      case Some(None) => Response(ServerError500, s, None)
      case Some(Some(data)) =>
        if !IsClosed(data) then Response(Ok200, s, None)
        else DraftClosed(s, data, now, commitOk)
  }

  /** A Closed notification with a valid signature, a dictionary body, an integer `orderId` and a non-blank description. */
  predicate DraftAccepts(req: Request, verify: (seq<bv8>, string) -> bool) {
    && SignatureOk(req, verify)
    && req.body.Some? && BodyFields(req.body).Some?
    && IsClosed(BodyFields(req.body).value)
    && DraftAdmitted(BodyFields(req.body).value)
  }
}

/** What the draft of bot.py does, and how it compares with the handler of entry.py. */
module DraftFacts {
  import opened Wrappers
  import opened PyText
  import opened PyJson
  import opened Models
  import opened Webhook
  import opened WebhookDraft

  /**
    The draft inserts exactly when its parsing succeeds and the commit goes
    through, whatever the plan and whatever the user id, 0 included. The row
    holds the integer `orderId`, the first word of the description and `now`
    plus the plan's days, so an unknown plan gets `expires_at == now`.
   */
  lemma DraftInsertsIff(s: Store, req: Request, now: int, verify: (seq<bv8>, string) -> bool, commitOk: bool)
    ensures var r := GrantV1(s, req, now, verify, commitOk);
      && (r.unban.Some? <==> DraftAccepts(req, verify) && commitOk)
      && (r.unban.Some? ==>
            var data := BodyFields(req.body).value;
            var plan := DraftPlan(data);
            && Appended(s, r.store, DraftUser(data), plan, now + PlanDays(plan) * SecondsPerDay)
            && (plan !in DaysMap ==> r.store[|s|].expiresAt == now))
  {
    if SignatureOk(req, verify) && req.body.Some? && BodyFields(req.body).Some? {
      var data := BodyFields(req.body).value;
      assert DraftBody(req.body) == Some(Some(data));
    }
  }

  /**
    Where the current handler skips a notification whose `orderId` is not an
    integer and answers 200, the draft raises: 500 and no insert.
   */
  lemma DraftFailsOnNonIntegerOrderId(s: Store, req: Request, now: int, verify: (seq<bv8>, string) -> bool, commitOk: bool)
    requires SignatureOk(req, verify) && req.body.Some? && BodyFields(req.body).Some?
    requires IsClosed(BodyFields(req.body).value)
    requires ToInt(Get(BodyFields(req.body).value, "orderId")).None?
    ensures GrantV1(s, req, now, verify, commitOk) == Response(ServerError500, s, None)
    ensures Grant(s, req, now, verify, commitOk).store == s
  {
    var data := BodyFields(req.body).value;
    assert DraftBody(req.body) == Some(Some(data));
    GrantInsertsIff(s, req, now, verify, commitOk, ToInt);
  }

  /** On a Closed dictionary the current handler admits, the draft does exactly what it does. */
  lemma DraftClosedAgrees(s: Store, data: map<string, Json>, now: int, commitOk: bool)
    requires Admitted(data, ToInt)
    ensures DraftClosed(s, data, now, commitOk) == GrantClosed(s, data, now, commitOk, ToInt)
  {
    var description := GetOr(data, "description", JStr(""));
    var commit := CommitGrant(s, GrantedUser(data, ToInt), GrantedPlan(data, ToInt), now, commitOk);
    assert DraftClosed(s, data, now, commitOk) == commit;
    assert DescriptionWords(description) == Some(Split(description.s));
    assert GrantClosed(s, data, now, commitOk, ToInt) == commit;
  }

  /** On every notification the current handler grants, the draft grants the very same row. */
  lemma DraftAgreesOnGrantable(s: Store, req: Request, now: int, verify: (seq<bv8>, string) -> bool, commitOk: bool)
    requires Grantable(req, verify, ToInt)
    ensures GrantV1(s, req, now, verify, commitOk) == Grant(s, req, now, verify, commitOk)
  {
    var data := BodyFields(req.body).value;
    assert DraftBody(req.body) == Some(Some(data));
    assert GrantV1(s, req, now, verify, commitOk) == DraftClosed(s, data, now, commitOk);
    assert Grant(s, req, now, verify, commitOk) == GrantClosed(s, data, now, commitOk, ToInt);
    DraftClosedAgrees(s, data, now, commitOk);
  }
}
