/**
  How the parts meet: the invoice `process_plan` creates, the Closed
  notification the processor sends back for it, the grant the webhook makes,
  the listing `cb_my_subs` shows and the sweep that later revokes it.

  The order id `process_plan` chooses (`tg-<user id>-<callback id>`) is not an
  integer, and both webhook handlers read the user id with `int(orderId)`;
  `ChatOrderUserId` is the reader the two ends evidently intend, and
  `GrantFixed` the handler that uses it.
 */
module Flows {
  import opened Wrappers
  import opened PyText
  import opened PyJson
  import opened Models
  import opened Scheduler
  import opened SweepFacts
  import opened Payments
  import opened Handlers
  import opened Webhook
  import opened WebhookDraft
  import opened DraftFacts

  /** The Closed notification the processor sends for a paid link: it echoes the link's `orderId` and `description`. */
  function ClosedNotification(raw: seq<bv8>, signature: string, p: Payload): Request {
    Request(raw, Some(signature), Some(JObject(map[
      "status" := JStr("Closed"),
      "orderId" := JStr(p.orderId),
      "description" := JStr(p.description)])))
  }

  /** The notification for the link `process_plan` requests when plan button `key` is pressed. */
  function ChatNotification(raw: seq<bv8>, signature: string, key: string, userId: int, callbackId: string, base: string): Request
    requires key in PlanMap
  {
    ClosedNotification(raw, signature, BuildPayload(PlanInvoiceArgs(key, userId, callbackId, base)))
  }

  /** The length of the run of decimal digits that `t` starts with. */
  function DigitRun(t: string): (k: nat)
    ensures k <= |t| && AllDigits(t[..k])
    ensures k == |t| || !IsDigit(t[k])
  {
    if t == [] || !IsDigit(t[0]) then 0
    else
      var k := 1 + DigitRun(t[1..]);
      assert t[..k] == [t[0]] + t[1..][..k - 1];
      k
  }

  /** The digits before the first `-` of `<digits>-<callback id>`, as a number. */
  function UnsignedField(body: string): Option<nat> {
    var k := DigitRun(body);
    if k == 0 || k == |body| || body[k] != '-' then None
    else Some(DigitsValue(body[..k]))
  }

  /** The user id field of `<user id>-<callback id>`: an optional `-`, digits, then a `-`. */
  function ChatUserId(t: string): Option<int> {
    if |t| > 0 && t[0] == '-' then
      match UnsignedField(t[1..])
      case None => None
      case Some(m) => Some(-(m as int))
    else
      match UnsignedField(t)
      case None => None
      case Some(m) => Some(m)
  }

  /**
    The user id of an `orderId` as both ends evidently intend it: whatever
    `int()` accepts, and otherwise the user id field of a `tg-` order id.
   */
  function ChatOrderUserId(v: Json): Option<int> {
    if ToInt(v).Some? then ToInt(v)
    else if v.JStr? && |v.s| >= 3 && v.s[..3] == "tg-" then ChatUserId(v.s[3..])
    else None
  }

  /** The webhook of entry.py with the corrected reading of `orderId`. */
  function GrantFixed(s: Store, req: Request, now: int, verify: (seq<bv8>, string) -> bool, commitOk: bool): (r: Response)
    ensures r.unban.Some? ==> BodyFields(req.body).Some? && r.unban == ChatOrderUserId(Get(BodyFields(req.body).value, "orderId"))
    ensures r.unban.Some? ==> r.unban.value != 0
  {
    GrantWith(s, req, now, verify, commitOk, ChatOrderUserId)
  }

  /** A digit run ends at the first character that is not a digit. */
  lemma {:induction false} DigitRunOf(p: string, c: char, rest: string)
    requires AllDigits(p) && !IsDigit(c)
    ensures DigitRun(p + [c] + rest) == |p|
  {
    if p != [] {
      assert (p + [c] + rest)[1..] == p[1..] + [c] + rest;
      DigitRunOf(p[1..], c, rest);
    }
  }

  /** `int()` raises on every order id `process_plan` builds: it starts with `t`. */
  lemma ChatOrderIdIsNotAnInt(userId: int, callbackId: string)
    ensures ToInt(JStr(OrderId(userId, callbackId))) == None
  {
    var o := OrderId(userId, callbackId);
    assert o[0] == 't';
    ParseRejectsLeading(o);
  }

  /** A run of digits followed by `-` is read as that run's value. */
  lemma UnsignedFieldOf(digits: string, rest: string)
    requires |digits| > 0 && AllDigits(digits)
    ensures UnsignedField(digits + ['-'] + rest) == Some(DigitsValue(digits))
  {
    var body := digits + ['-'] + rest;
    DigitRunOf(digits, '-', rest);
    assert body[..|digits|] == digits;
  }

  /** The user id field of a non-negative user id. */
  lemma PlainFieldOf(digits: string, rest: string)
    requires |digits| > 0 && AllDigits(digits)
    ensures ChatUserId(digits + "-" + rest) == Some(DigitsValue(digits))
  {
    var t := digits + "-" + rest;
    assert t == digits + ['-'] + rest;
    assert IsDigit(t[0]);
    UnsignedFieldOf(digits, rest);
  }

  /** A leading `-` negates the digits field that follows it. */
  lemma MinusField(body: string, m: nat)
    requires UnsignedField(body) == Some(m)
    ensures ChatUserId(['-'] + body) == Some(-(m as int))
  {
    assert (['-'] + body)[1..] == body;
  }

  /** The user id field of `IntStr(u) + "-" + rest` reads back `u`. */
  lemma ChatUserIdOf(u: int, rest: string)
    ensures ChatUserId(IntStr(u) + "-" + rest) == Some(u)
  {
    if u < 0 {
      var body := NatStr(-u) + ['-'] + rest;
      assert IntStr(u) + "-" + rest == ['-'] + body;
      UnsignedFieldOf(NatStr(-u), rest);
      MinusField(body, -u);
    } else {
      PlainFieldOf(NatStr(u), rest);
    }
  }

  /** Past the `tg-` tag the corrected reader reads only the user id field. */
  lemma TaggedOrderId(o: string, tail: string)
    requires o == "tg-" + tail
    ensures ToInt(JStr(o)) == None
    ensures ChatOrderUserId(JStr(o)) == ChatUserId(tail)
  {
    assert o[0] == 't';
    ParseRejectsLeading(o);
    assert o[..3] == "tg-" && o[3..] == tail;
  }

  /** The order id is the `tg-` tag followed by the user id field. */
  lemma OrderIdTagged(userId: int, callbackId: string)
    ensures OrderId(userId, callbackId) == "tg-" + (IntStr(userId) + "-" + callbackId)
  {
  }

  /** The corrected reader recovers the user id from every order id `process_plan` builds. */
  lemma ChatOrderIdRoundTrip(userId: int, callbackId: string)
    ensures ChatOrderUserId(JStr(OrderId(userId, callbackId))) == Some(userId)
  {
    var tail := IntStr(userId) + "-" + callbackId;
    OrderIdTagged(userId, callbackId);
    TaggedOrderId(OrderId(userId, callbackId), tail);
    ChatUserIdOf(userId, callbackId);
  }

  /** Every plan name is a single word, so it survives as the first token of the description. */
  lemma PlanNamesAreWords(key: string)
    requires key in PlanMap
    ensures Word(PlanMap[key].name)
  {
    var name := PlanMap[key].name;
    forall i | 0 <= i < |name|
      ensures !IsSpace(name[i])
    {
      assert 'А' <= name[i] <= 'я' || name[i] == '1';
    }
  }

  /** The chat's plan table and the webhook's days table agree on every plan's duration. */
  lemma PlanDaysAgree(key: string)
    requires key in PlanMap
    ensures PlanDays(PlanMap[key].name) == PlanMap[key].days
  {
  }

  /** The first word of the link's description is the plan name it was created for. */
  lemma DescriptionNamesPlan(a: InvoiceArgs)
    requires Word(a.plan)
    ensures |Split(BuildPayload(a).description)| > 0 && Split(BuildPayload(a).description)[0] == a.plan
  {
    var rest := " user " + IntStr(a.userId);
    assert BuildPayload(a).description == a.plan + rest;
    assert IsSpace(rest[0]);
    FirstWordOf(a.plan, rest);
  }

  /** The webhook reads back the order id and the description the link was created with. */
  lemma ClosedNotificationFields(raw: seq<bv8>, signature: string, p: Payload)
    ensures var req := ClosedNotification(raw, signature, p);
      && BodyFields(req.body).Some?
      && var data := BodyFields(req.body).value;
         && IsClosed(data)
         && Get(data, "orderId") == JStr(p.orderId)
         && GetOr(data, "description", JStr("")) == JStr(p.description)
  {
    var req := ClosedNotification(raw, signature, p);
    assert "status" in req.body.value.fields;
  }

  /** The fields of the notification for a plan button press, as the webhook reads them. */
  lemma ChatNotificationFields(raw: seq<bv8>, signature: string, key: string, userId: int, callbackId: string, base: string)
    requires key in PlanMap
    ensures var req := ChatNotification(raw, signature, key, userId, callbackId, base);
      && BodyFields(req.body).Some?
      && var data := BodyFields(req.body).value;
         && IsClosed(data)
         && Get(data, "orderId") == JStr(OrderId(userId, callbackId))
         && GetOr(data, "description", JStr("")).JStr?
         && |Split(GetOr(data, "description", JStr("")).s)| > 0
         && Split(GetOr(data, "description", JStr("")).s)[0] == PlanMap[key].name
  {
    var a := PlanInvoiceArgs(key, userId, callbackId, base);
    ClosedNotificationFields(raw, signature, BuildPayload(a));
    assert OrderRef(a) == OrderId(userId, callbackId);
    PlanNamesAreWords(key);
    DescriptionNamesPlan(a);
  }

  /**
    As written, a paid chat invoice never grants: for the Closed notification
    of any link `process_plan` creates, entry.py answers 200 without a row or
    an unban, and bot.py fails with 500.
   */
  lemma ChatPaymentNeverGrants(s: Store, raw: seq<bv8>, signature: string, key: string, userId: int,
                               callbackId: string, base: string, now: int,
                               verify: (seq<bv8>, string) -> bool, commitOk: bool)
    requires key in PlanMap
    requires |signature| > 0 && verify(raw, signature)
    ensures var req := ChatNotification(raw, signature, key, userId, callbackId, base);
      && Grant(s, req, now, verify, commitOk) == Response(Ok200, s, None)
      && GrantV1(s, req, now, verify, commitOk) == Response(ServerError500, s, None)
  {
    var req := ChatNotification(raw, signature, key, userId, callbackId, base);
    ChatNotificationFields(raw, signature, key, userId, callbackId, base);
    ChatOrderIdIsNotAnInt(userId, callbackId);
    var data := BodyFields(req.body).value;
    assert Grant(s, req, now, verify, commitOk) == GrantClosed(s, data, now, commitOk, ToInt);
    GrantClosedSkips(s, data, now, commitOk, ToInt);
    DraftFailsOnNonIntegerOrderId(s, req, now, verify, commitOk);
  }

  /**
    With the corrected reader, paying for a plan of positive duration inserts
    the row `(user, plan name, now + days)` and schedules the unban, for every
    user id but 0.
   */
  lemma ChatPaymentGrants(s: Store, raw: seq<bv8>, signature: string, key: string, userId: int,
                          callbackId: string, base: string, now: int, verify: (seq<bv8>, string) -> bool)
    requires key in PlanMap && PlanMap[key].days > 0 && userId != 0
    requires |signature| > 0 && verify(raw, signature)
    ensures var r := GrantFixed(s, ChatNotification(raw, signature, key, userId, callbackId, base), now, verify, true);
      && r.status == Ok200 && r.unban == Some(userId)
      && Appended(s, r.store, userId, PlanMap[key].name, now + PlanMap[key].days * SecondsPerDay)
  {
    var req := ChatNotification(raw, signature, key, userId, callbackId, base);
    ChatNotificationFields(raw, signature, key, userId, callbackId, base);
    ChatOrderIdRoundTrip(userId, callbackId);
    PlanDaysAgree(key);
    assert Grantable(req, verify, ChatOrderUserId);
    GrantInsertsIff(s, req, now, verify, true, ChatOrderUserId);
  }

  /** The test plan lasts 0 days, so even the corrected handler grants nothing for it. */
  lemma TestPlanNeverGrants(s: Store, raw: seq<bv8>, signature: string, userId: int,
                            callbackId: string, base: string, now: int,
                            verify: (seq<bv8>, string) -> bool, commitOk: bool)
    requires |signature| > 0 && verify(raw, signature)
    ensures GrantFixed(s, ChatNotification(raw, signature, "plan_test1m", userId, callbackId, base), now, verify, commitOk)
         == Response(Ok200, s, None)
  {
    var req := ChatNotification(raw, signature, "plan_test1m", userId, callbackId, base);
    ChatNotificationFields(raw, signature, "plan_test1m", userId, callbackId, base);
    PlanDaysAgree("plan_test1m");
    var data := BodyFields(req.body).value;
    assert GrantFixed(s, req, now, verify, commitOk) == GrantClosed(s, data, now, commitOk, ChatOrderUserId);
    GrantClosedSkips(s, data, now, commitOk, ChatOrderUserId);
  }

  /**
    An invoice created without an order id carries the user id itself, which
    `int()` reads back: for such a link the handler as written grants.
   */
  lemma PlainOrderIdGrants(s: Store, raw: seq<bv8>, signature: string, a: InvoiceArgs, now: int,
                           verify: (seq<bv8>, string) -> bool)
    requires !Present(a.orderId) && a.userId != 0
    requires Word(a.plan) && a.plan in DaysMap
    requires |signature| > 0 && verify(raw, signature)
    ensures var r := Grant(s, ClosedNotification(raw, signature, BuildPayload(a)), now, verify, true);
      && r.status == Ok200 && r.unban == Some(a.userId)
      && Appended(s, r.store, a.userId, a.plan, now + DaysMap[a.plan] * SecondsPerDay)
  {
    var req := ClosedNotification(raw, signature, BuildPayload(a));
    ClosedNotificationFields(raw, signature, BuildPayload(a));
    DescriptionNamesPlan(a);
    assert ToInt(JStr(OrderRef(a))) == Some(a.userId);
    assert Grantable(req, verify, ToInt);
    GrantInsertsIff(s, req, now, verify, true, ToInt);
  }

  /** A row in force shows up as an active line of its user's listing. */
  lemma LiveRowListedActive(s: Store, userId: int, now: int, k: int)
    requires 0 <= k < |s| && s[k].userId == userId && s[k].expiresAt > now
    ensures MySubs(s, userId, now, true, true).Listing?
    ensures var lines := MySubs(s, userId, now, true, true).lines;
      exists i :: 0 <= i < |lines| && lines[i].active
  {
    var rows := SortByExpiryDesc(Restrict(s, {userId}));
    assert s[k] in Restrict(s, {userId});
    assert s[k] in multiset(rows);
    var i :| 0 <= i < |rows| && rows[i] == s[k];
    var lines := MySubs(s, userId, now, true, true).lines;
    assert lines[i] == Line(rows[i], now);
  }

  /** An active line of a listing stands for a row of that user in force. */
  lemma ActiveLineIsLive(s: Store, userId: int, now: int, i: int)
    requires MySubs(s, userId, now, true, true).Listing?
    requires 0 <= i < |MySubs(s, userId, now, true, true).lines| && MySubs(s, userId, now, true, true).lines[i].active
    ensures ActiveUser(s, userId, now)
  {
    var rows := SortByExpiryDesc(Restrict(s, {userId}));
    var lines := MySubs(s, userId, now, true, true).lines;
    assert lines[i] == Line(rows[i], now);
    assert rows[i] in multiset(Restrict(s, {userId}));
    assert rows[i] in s;
  }

  /**
    `cb_my_subs` and the sweep agree: a user with rows sees a listing, and
    every line of it reads expired exactly when the sweep counts the user as
    expired.
   */
  lemma ListingAgreesWithSweep(s: Store, userId: int, now: int)
    requires HasUser(s, userId)
    ensures MySubs(s, userId, now, true, true).Listing?
    ensures var lines := MySubs(s, userId, now, true, true).lines;
      (forall i :: 0 <= i < |lines| ==> !lines[i].active) <==> userId in ExpiredUsers(s, now)
  {
    MySubsEmptyIffNoRows(s, userId, now);
    ExpiredIffNoLiveRow(s, now, userId);
    if ActiveUser(s, userId, now) {
      var k :| 0 <= k < |s| && s[k].userId == userId && s[k].expiresAt > now;
      LiveRowListedActive(s, userId, now, k);
    }
    var lines := MySubs(s, userId, now, true, true).lines;
    forall i | 0 <= i < |lines| && lines[i].active
      ensures ActiveUser(s, userId, now)
    {
      ActiveLineIsLive(s, userId, now, i);
    }
  }

  /** A user with a single row is revoked by a healthy tick exactly once that row has lapsed. */
  lemma LoneRowRevokedIff(g: Store, j: int, later: int, raises: set<int>)
    requires 0 <= j < |g|
    requires forall i :: 0 <= i < |g| && i != j ==> g[i].userId != g[j].userId
    ensures g[j].userId in Revoked(Tick(g, later, raises, Healthy)) <==> later >= g[j].expiresAt
  {
    var u := g[j].userId;
    RevokedExactlyOnce(g, later, raises);
    assert HasUser(g, u);
    if later >= g[j].expiresAt {
      forall i | 0 <= i < |g| && g[i].userId == u
        ensures g[i].expiresAt <= later
      {
        assert i == j;
      }
    }
  }

  /**
    A first purchase from the chat, granted by the corrected handler, is
    revoked by the sweep exactly from the moment its days have run out.
   */
  lemma ChatGrantLapsesOnTime(s: Store, raw: seq<bv8>, signature: string, key: string, userId: int,
                              callbackId: string, base: string, now: int, verify: (seq<bv8>, string) -> bool,
                              later: int, raises: set<int>)
    requires key in PlanMap && PlanMap[key].days > 0 && userId != 0
    requires |signature| > 0 && verify(raw, signature)
    requires !HasUser(s, userId)
    ensures var granted := GrantFixed(s, ChatNotification(raw, signature, key, userId, callbackId, base), now, verify, true);
      userId in Revoked(Tick(granted.store, later, raises, Healthy)) <==> later >= now + PlanMap[key].days * SecondsPerDay
  {
    var g := GrantFixed(s, ChatNotification(raw, signature, key, userId, callbackId, base), now, verify, true).store;
    ChatPaymentGrants(s, raw, signature, key, userId, callbackId, base, now, verify);
    forall i | 0 <= i < |g| && i != |s|
      ensures g[i].userId != g[|s|].userId
    {
      assert g[i] == g[..|s|][i];
    }
    LoneRowRevokedIff(g, |s|, later, raises);
  }

  /** Appending a row that expires exactly at `now` leaves a user's rows in force at `now` as they were. */
  lemma LapsedAppendKeepsLive(s: Store, g: Store, u: int, plan: string, now: int, v: int)
    requires Appended(s, g, u, plan, now)
    ensures ActiveUser(g, v, now) <==> ActiveUser(s, v, now)
  {
    if ActiveUser(g, v, now) {
      var i :| 0 <= i < |g| && g[i].userId == v && g[i].expiresAt > now;
      assert i < |s| && g[i] == g[..|s|][i];
    }
    if ActiveUser(s, v, now) {
      var i :| 0 <= i < |s| && s[i].userId == v && s[i].expiresAt > now;
      assert g[i] == g[..|s|][i];
    }
  }

  /**
    A row appended with expiry `now` is revoked by a healthy sweep at `now`
    exactly when its user has no other row in force; otherwise the sweep
    does not touch that user, and the row survives.
   */
  lemma LapsedAppendSweptIff(s: Store, g: Store, u: int, plan: string, now: int, raises: set<int>)
    requires Appended(s, g, u, plan, now)
    ensures u in Revoked(Tick(g, now, raises, Healthy)) <==> !ActiveUser(s, u, now)
    ensures g[|s|] in Tick(g, now, raises, Healthy).store <==> ActiveUser(s, u, now)
  {
    LapsedAppendKeepsLive(s, g, u, plan, now, u);
    assert HasUser(g, u) by { assert g[|s|].userId == u; }
    RevokedExactlyOnce(g, now, raises);
    TickKeepsLiveRows(g, now, raises);
  }

  /**
    The draft's row for a plan outside its days table expires at the instant
    of the grant: a sweep at that same instant revokes the user exactly when
    they hold no other row in force, and otherwise leaves the new row alone.
   */
  lemma DraftUnknownPlanLapsesAtOnce(s: Store, req: Request, now: int, verify: (seq<bv8>, string) -> bool, raises: set<int>)
    requires DraftAccepts(req, verify)
    requires DraftPlan(BodyFields(req.body).value) !in DaysMap
    ensures var data := BodyFields(req.body).value;
      var u := DraftUser(data);
      var g := GrantV1(s, req, now, verify, true);
      var t := Tick(g.store, now, raises, Healthy);
      && g.unban == Some(u) && |g.store| == |s| + 1
      && g.store[|s|].plan == DraftPlan(data) && g.store[|s|].expiresAt == now
      && (u in Revoked(t) <==> !ActiveUser(s, u, now))
      && (g.store[|s|] in t.store <==> ActiveUser(s, u, now))
  {
    var data := BodyFields(req.body).value;
    DraftInsertsIff(s, req, now, verify, true);
    var g := GrantV1(s, req, now, verify, true).store;
    LapsedAppendSweptIff(s, g, DraftUser(data), DraftPlan(data), now, raises);
  }
}
