/**
  The payment-processor webhook (`payment_webhook`) of entry.py: the signature
  gate, the status filter, reading the user id from `orderId` and the plan from
  the first word of `description`, the days table, the guarded insert and the
  unban that follows it.
 */
module Webhook {
  import opened Wrappers
  import opened PyText
  import opened PyJson
  import opened Models

  /** A webhook call: raw body bytes, the `X-Signature` header, and the body as decoded JSON (None when it is not JSON). */
  datatype Request = Request(raw: seq<bv8>, signature: Option<string>, body: Option<Json>)

  datatype Status = Ok200 | BadRequest400 | ServerError500

  /** The HTTP status, the store after the request, and the user whose unban was scheduled. */
  datatype Response = Response(status: Status, store: Store, unban: Option<int>)

  const SecondsPerDay: int := 86400

  /** The webhook's own plan durations; any other plan name is worth 0 days. */
  const DaysMap: map<string, int> := map["Неделя" := 7, "Месяц" := 30, "Чат" := 1]

  function PlanDays(plan: string): (d: int)
    ensures d >= 0
    ensures d > 0 <==> plan in DaysMap
  {
    if plan in DaysMap then DaysMap[plan] else 0
  }

  /** `if not sig or not verify_signature(raw, sig)` lets the request through. */
  predicate SignatureOk(req: Request, verify: (seq<bv8>, string) -> bool) {
    req.signature.Some? && |req.signature.value| > 0 && verify(req.raw, req.signature.value)
  }

  /** `request.get_json(silent=True) or {}`: None when the result is not a dictionary (`.get` then raises). */
  function BodyFields(body: Option<Json>): (f: Option<map<string, Json>>)
    ensures f.None? <==> body.Some? && Truthy(body.value) && !body.value.JObject?
    ensures body.None? || !Truthy(body.value) ==> f == Some(map[])
    ensures body.Some? && body.value.JObject? ==> f == Some(body.value.fields)
  {
    if body.None? || !Truthy(body.value) then Some(map[])
    else if body.value.JObject? then Some(body.value.fields)
    else None
  }

  /**
    `(description or "").split()`; None when a truthy non-string has no
    `split`. An empty string splits to no words either way.
   */
  function DescriptionWords(v: Json): Option<seq<string>> {
    match v
    case JStr(text) => Some(Split(text))
    case _ => if Truthy(v) then None else Some([])
  }

  predicate IsClosed(fields: map<string, Json>) {
    Get(fields, "status") == JStr("Closed")
  }

  /** The guards a Closed notification must pass to be granted: a non-zero user id and a plan of positive duration. */
  predicate Admitted(data: map<string, Json>, userIdOf: Json -> Option<int>) {
    var userId := userIdOf(Get(data, "orderId"));
    var description := GetOr(data, "description", JStr(""));
    && userId.Some? && userId.value != 0
    && description.JStr? && |Split(description.s)| > 0
    && PlanDays(Split(description.s)[0]) > 0
  }

  /** The user id an admitted notification is granted to. */
  function GrantedUser(data: map<string, Json>, userIdOf: Json -> Option<int>): int
    requires Admitted(data, userIdOf)
  {
    userIdOf(Get(data, "orderId")).value
  }

  /** The plan an admitted notification is granted: the first word of its description. */
  function GrantedPlan(data: map<string, Json>, userIdOf: Json -> Option<int>): string
    requires Admitted(data, userIdOf)
  {
    Split(GetOr(data, "description", JStr("")).s)[0]
  }

  /**
    The insert of a grant, its commit and the unban that follows. A failed
    commit raises out of the handler, which Flask answers with 500.
   */
  function CommitGrant(s: Store, userId: int, plan: string, now: int, commitOk: bool): (r: Response)
    ensures r.unban.Some? <==> commitOk
    ensures !commitOk ==> r == Response(ServerError500, s, None)
    ensures commitOk ==>
      && r.status == Ok200 && r.unban == Some(userId)
      && Appended(s, r.store, userId, plan, now + PlanDays(plan) * SecondsPerDay)
    ensures UniqueIds(s) ==> UniqueIds(r.store)
  {
    if !commitOk then Response(ServerError500, s, None)
    else Response(Ok200, Insert(s, userId, plan, now + PlanDays(plan) * SecondsPerDay), Some(userId))
  }

  /** What the handler does with a Closed notification whose body is a dictionary. */
  function GrantClosed(s: Store, data: map<string, Json>, now: int, commitOk: bool,
                       userIdOf: Json -> Option<int>): (r: Response)
    ensures r.unban.None? ==> r.store == s
    ensures r.unban.Some? ==>
      && r.status == Ok200
      && Admitted(data, userIdOf)
      && r.unban == Some(GrantedUser(data, userIdOf))
      && var plan := GrantedPlan(data, userIdOf);
         Appended(s, r.store, GrantedUser(data, userIdOf), plan, now + PlanDays(plan) * SecondsPerDay)
    ensures var words := DescriptionWords(GetOr(data, "description", JStr("")));
      words.None? || |words.value| == 0 ==> r == Response(ServerError500, s, None)
    ensures UniqueIds(s) ==> UniqueIds(r.store)
  {
    var userId := userIdOf(Get(data, "orderId"));
    var description := GetOr(data, "description", JStr(""));
    var words := DescriptionWords(description);
    if words.None? || |words.value| == 0 then Response(ServerError500, s, None)
    else
      var plan := words.value[0];
      var days := PlanDays(plan);
      if userId.Some? && userId.value != 0 && days > 0 then CommitGrant(s, userId.value, plan, now, commitOk)
      else Response(Ok200, s, None)
  }

  /**
    The handler, parameterised by how the user id is read from `orderId`
    (`userIdOf`). `verify` is the signature check over the raw body,
    `commitOk` says whether the insert commits, and `now` is the current time.
   */
  function GrantWith(s: Store, req: Request, now: int, verify: (seq<bv8>, string) -> bool,
                     commitOk: bool, userIdOf: Json -> Option<int>): (r: Response)
    ensures !SignatureOk(req, verify) ==> r == Response(BadRequest400, s, None)
    ensures r.unban.None? ==> r.store == s
    ensures r.unban.Some? ==>
      && r.status == Ok200
      && BodyFields(req.body).Some? && IsClosed(BodyFields(req.body).value)
      && var data := BodyFields(req.body).value;
         && Admitted(data, userIdOf)
         && r.unban == Some(GrantedUser(data, userIdOf))
         && var plan := GrantedPlan(data, userIdOf);
            && plan in DaysMap
            && Appended(s, r.store, GrantedUser(data, userIdOf), plan, now + DaysMap[plan] * SecondsPerDay)
    ensures SignatureOk(req, verify) && BodyFields(req.body).Some? && !IsClosed(BodyFields(req.body).value)
      ==> r == Response(Ok200, s, None)
    ensures SignatureOk(req, verify) && BodyFields(req.body).None? ==> r == Response(ServerError500, s, None)
    ensures UniqueIds(s) ==> UniqueIds(r.store)
  {
    if !SignatureOk(req, verify) then Response(BadRequest400, s, None)
    else
      match BodyFields(req.body)
      case None => Response(ServerError500, s, None)
      case Some(data) =>
        if !IsClosed(data) then Response(Ok200, s, None)
        else GrantClosed(s, data, now, commitOk, userIdOf)
  }

  /** entry.py as written: the user id is `int(orderId)`, with `TypeError` and `ValueError` read as no user. */
  function Grant(s: Store, req: Request, now: int, verify: (seq<bv8>, string) -> bool, commitOk: bool): (r: Response)
    ensures r.unban.Some? ==> BodyFields(req.body).Some? && r.unban == ToInt(Get(BodyFields(req.body).value, "orderId"))
    ensures r.unban.Some? ==> r.unban.value != 0
  {
    GrantWith(s, req, now, verify, commitOk, ToInt)
  }

  /** The notification would be granted: every guard of the handler passes. */
  predicate Grantable(req: Request, verify: (seq<bv8>, string) -> bool, userIdOf: Json -> Option<int>) {
    && SignatureOk(req, verify)
    && BodyFields(req.body).Some?
    && IsClosed(BodyFields(req.body).value)
    && Admitted(BodyFields(req.body).value, userIdOf)
  }

  /** A Closed dictionary is granted exactly when it is admitted and the insert commits. */
  lemma GrantClosedIff(s: Store, data: map<string, Json>, now: int, commitOk: bool, userIdOf: Json -> Option<int>)
    ensures GrantClosed(s, data, now, commitOk, userIdOf).unban.Some? <==> Admitted(data, userIdOf) && commitOk
  {
  }

  /**
    A Closed dictionary with a description but without a grantable user or
    plan is acknowledged with 200 and changes nothing.
   */
  lemma GrantClosedSkips(s: Store, data: map<string, Json>, now: int, commitOk: bool, userIdOf: Json -> Option<int>)
    requires GetOr(data, "description", JStr("")).JStr? && |Split(GetOr(data, "description", JStr("")).s)| > 0
    requires !Admitted(data, userIdOf)
    ensures GrantClosed(s, data, now, commitOk, userIdOf) == Response(Ok200, s, None)
  {
    var description := GetOr(data, "description", JStr(""));
    assert DescriptionWords(description) == Some(Split(description.s));
  }

  /**
    A row is inserted exactly when every guard passes and the insert commits:
    the row `(user id, first word of description, now + days)`, after which
    the unban of that user is scheduled; otherwise the table is unchanged.
   */
  lemma GrantInsertsIff(s: Store, req: Request, now: int, verify: (seq<bv8>, string) -> bool,
                        commitOk: bool, userIdOf: Json -> Option<int>)
    ensures var r := GrantWith(s, req, now, verify, commitOk, userIdOf);
      && (r.unban.Some? <==> Grantable(req, verify, userIdOf) && commitOk)
      && (r.unban.None? ==> r.store == s)
      && (r.unban.Some? ==>
            var data := BodyFields(req.body).value;
            var plan := GrantedPlan(data, userIdOf);
            && r.status == Ok200 && r.unban == Some(GrantedUser(data, userIdOf))
            && Appended(s, r.store, GrantedUser(data, userIdOf), plan, now + PlanDays(plan) * SecondsPerDay))
  {
    if SignatureOk(req, verify) && BodyFields(req.body).Some? && IsClosed(BodyFields(req.body).value) {
      GrantClosedIff(s, BodyFields(req.body).value, now, commitOk, userIdOf);
    }
  }

  /**
    There is no deduplication on `orderId`: delivering the same granted
    notification again inserts a second, identical grant.
   */
  lemma ReplayInsertsAgain(s: Store, req: Request, now: int, verify: (seq<bv8>, string) -> bool)
    requires Grantable(req, verify, ToInt)
    ensures var once := Grant(s, req, now, verify, true);
      var twice := Grant(once.store, req, now, verify, true);
      && |twice.store| == |s| + 2
      && twice.store[|s| + 1].userId == once.store[|s|].userId
      && twice.store[|s| + 1].plan == once.store[|s|].plan
      && twice.store[|s| + 1].expiresAt == once.store[|s|].expiresAt
  {
    GrantInsertsIff(s, req, now, verify, true, ToInt);
    GrantInsertsIff(Grant(s, req, now, verify, true).store, req, now, verify, true, ToInt);
  }
}
