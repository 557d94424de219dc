/**
  The chat-side logic of app/handlers.py: the plan table, how `process_plan`
  derives the order id and redirect URLs and picks its reply, and how
  `cb_my_subs` lists a user's rows.
 */
module Handlers {
  import opened Wrappers
  import opened PyText
  import opened PyJson
  import opened Models
  import Payments

  /** A tariff: display name, price in kopecks, duration in days. */
  datatype Plan = Plan(name: string, priceKopecks: int, days: int)

  const PlanMap: map<string, Plan> := map[
    "plan_week"   := Plan("Неделя", 10000, 7),
    "plan_month"  := Plan("Месяц", 30000, 30),
    "plan_chat"   := Plan("Чат", 5000, 1),
    "plan_test1m" := Plan("Тест1м", 100, 0)
  ]

  /** Every plan costs something, and the test plan is the only one that lasts no days. */
  lemma PlanTableShape(key: string)
    requires key in PlanMap
    ensures PlanMap[key].priceKopecks > 0 && PlanMap[key].days >= 0
    ensures PlanMap[key].days == 0 <==> key == "plan_test1m"
  {
  }

  /** `APP_BASE_URL`, falling back to `BASE_URL`, then to "", with trailing `/` stripped. */
  function BaseUrl(appBaseUrl: Option<string>, baseUrl: Option<string>): (b: string)
    ensures appBaseUrl.Some? ==> Payments.SlashStripped(appBaseUrl.value, b)
    ensures appBaseUrl.None? ==> Payments.SlashStripped(baseUrl.GetOr(""), b)
  {
    RStripChar(appBaseUrl.GetOr(baseUrl.GetOr("")), '/')
  }

  /** The order id of one plan button press: `tg-<user id>-<callback id>`. */
  function OrderId(userId: int, callbackId: string): (o: string)
    ensures |o| > 3 + |callbackId| && o[..3] == "tg-"
    ensures o[|o| - |callbackId|..] == callbackId
  {
    var o := "tg-" + IntStr(userId) + "-" + callbackId;
    assert o[..3] == "tg-";
    assert o[|o| - |callbackId|..] == callbackId;
    o
  }

  /** The success and fail redirect URLs, both `None` when there is no base URL. */
  function RedirectUrls(base: string): (Option<string>, Option<string>) {
    if base != "" then (Some(base + "/paid/success"), Some(base + "/paid/fail")) else (None, None)
  }

  /** The arguments `process_plan` passes to `create_invoice` for a plan button. */
  function PlanInvoiceArgs(data: string, userId: int, callbackId: string, base: string): Payments.InvoiceArgs
    requires data in PlanMap
  {
    var plan := PlanMap[data];
    var urls := RedirectUrls(base);
    Payments.InvoiceArgs(userId, plan.priceKopecks, plan.name, urls.0, urls.1, Some(OrderId(userId, callbackId)))
  }

  /** The message `process_plan` sends back. */
  datatype PlanReply =
    | TryLater                            // the processor answered with an HTTP error
    | InvoiceError                        // any other exception while creating the invoice
    | NoLink                              // the invoice carries no usable `url`
    | PayLink(amount: string, url: Json)  // the invoice message with the link

  /** How `process_plan` turns the result of `create_invoice` into a reply. */
  function ChooseReply(amountKopecks: int, r: Payments.InvoiceResult): (reply: PlanReply)
    ensures r.HttpError? <==> reply == TryLater
    ensures r.Failed? ==> reply == InvoiceError
    ensures r.Invoice? && !r.body.JObject? ==> reply == InvoiceError
    ensures r.Invoice? && r.body.JObject? ==> (reply == NoLink <==> !Truthy(Get(r.body.fields, "url")))
    ensures r.Invoice? && r.body.JObject? && Truthy(Get(r.body.fields, "url")) ==>
      reply == PayLink(Payments.AmountText(amountKopecks), Get(r.body.fields, "url"))
    ensures reply.PayLink? ==> r.Invoice? && r.body.JObject? && Truthy(Get(r.body.fields, "url")) && reply.url == Get(r.body.fields, "url")
  {
    match r
    case HttpError(_) => TryLater
    case Failed(_) => InvoiceError
    case Invoice(body) =>
      if !body.JObject? then InvoiceError
      else
        var url := Get(body.fields, "url");
        if !Truthy(url) then NoLink else PayLink(Payments.AmountText(amountKopecks), url)
  }

  /** `process_plan` for a press of the plan button `data`; a payment link is offered for the plan's own price. */
  function ProcessPlan(data: string, userId: int, callbackId: string, base: string,
                       c: Payments.Config, answer: Payments.HttpAnswer): (reply: PlanReply)
    requires data in PlanMap
    ensures reply.PayLink? ==> reply.amount == Payments.AmountText(PlanMap[data].priceKopecks)
    ensures Payments.MockMode(c) ==> reply != TryLater
  {
    var args := PlanInvoiceArgs(data, userId, callbackId, base);
    ChooseReply(args.amountKopecks, Payments.CreateInvoice(c, args, answer))
  }

  /**
    The reply to a plan button: in mock mode the mock link (or the error
    message when no base URL is configured); in real mode "try later" exactly
    for an HTTP error status, and the processor's `url` when it answers with a
    dictionary holding one.
   */
  lemma ProcessPlanReplies(data: string, userId: int, callbackId: string, base: string,
                           c: Payments.Config, answer: Payments.HttpAnswer)
    requires data in PlanMap
    ensures var reply := ProcessPlan(data, userId, callbackId, base, c, answer);
      var args := PlanInvoiceArgs(data, userId, callbackId, base);
      && (Payments.MockMode(c) && c.appBaseUrl == "" ==> reply == InvoiceError)
      && (Payments.MockMode(c) && c.appBaseUrl != "" ==>
            reply == PayLink(Payments.AmountText(PlanMap[data].priceKopecks), JStr(Payments.MockLink(c.appBaseUrl, args))))
      && (!Payments.MockMode(c) ==> (reply == TryLater <==> answer.Answer? && answer.status >= 400))
      && (!Payments.MockMode(c) && answer.NoAnswer? ==> reply == InvoiceError)
      && (!Payments.MockMode(c) && answer.Answer? && answer.status < 400 && answer.body.None? ==> reply == InvoiceError)
      && (!Payments.MockMode(c) && answer.Answer? && answer.status < 400 && answer.body.Some? && !answer.body.value.JObject? ==>
            reply == InvoiceError)
      && (!Payments.MockMode(c) && answer.Answer? && answer.status < 400 && answer.body.Some? && answer.body.value.JObject? ==>
            (reply == NoLink <==> !Truthy(Get(answer.body.value.fields, "url"))))
      && (!Payments.MockMode(c) && answer.Answer? && answer.status < 400 && answer.body.Some?
            && answer.body.value.JObject? && Truthy(Get(answer.body.value.fields, "url")) ==>
            reply == PayLink(Payments.AmountText(PlanMap[data].priceKopecks), Get(answer.body.value.fields, "url")))
  {
    var args := PlanInvoiceArgs(data, userId, callbackId, base);
    var r := Payments.CreateInvoice(c, args, answer);
    if Payments.MockMode(c) && c.appBaseUrl != "" {
      var fields := map["id" := JStr("mock"), "url" := JStr(Payments.MockLink(c.appBaseUrl, args)), "status" := JStr("Opened")];
      assert r == Payments.Invoice(JObject(fields));
      assert Get(fields, "url") == JStr(Payments.MockLink(c.appBaseUrl, args));
    }
  }

  /** One line of the "my subscriptions" listing. */
  datatype SubLine = SubLine(plan: string, expiresAt: int, active: bool)

  datatype SubsView = NoSubscriptions | Listing(lines: seq<SubLine>) | FetchFailed

  predicate SortedDesc(rows: seq<Row>) {
    forall i, j :: 0 <= i < j < |rows| ==> rows[i].expiresAt >= rows[j].expiresAt
  }

  /** A row that expires no earlier than the head of a sorted list can go in front of it. */
  lemma SortedCons(x: Row, rows: seq<Row>)
    requires SortedDesc(rows)
    requires |rows| == 0 || x.expiresAt >= rows[0].expiresAt
    ensures SortedDesc([x] + rows)
  {
    var out := [x] + rows;
    forall i, j | 0 <= i < j < |out|
      ensures out[i].expiresAt >= out[j].expiresAt
    {
      if i == 0 {
        assert out[j] == rows[j - 1];
      } else {
        assert out[i] == rows[i - 1] && out[j] == rows[j - 1];
      }
    }
  }

  /** Inserts `r` before the first row that expires no later than it. */
  function InsertDesc(r: Row, rows: seq<Row>): (out: seq<Row>)
    requires SortedDesc(rows)
    ensures SortedDesc(out)
    ensures multiset(out) == multiset(rows) + multiset{r}
    ensures out[0] == r || (|rows| > 0 && out[0] == rows[0])
  {
    if |rows| == 0 || rows[0].expiresAt <= r.expiresAt then
      SortedCons(r, rows);
      [r] + rows
    else
      var rest := InsertDesc(r, rows[1..]);
      assert rows == [rows[0]] + rows[1..];
      SortedCons(rows[0], rest);
      [rows[0]] + rest
  }

  /** `.order_by(Subscription.expires_at.desc())`. */
  function SortByExpiryDesc(rows: seq<Row>): (out: seq<Row>)
    ensures SortedDesc(out)
    ensures multiset(out) == multiset(rows)
  {
    if rows == [] then []
    else
      assert rows == [rows[0]] + rows[1..];
      InsertDesc(rows[0], SortByExpiryDesc(rows[1..]))
  }

  function Line(r: Row, now: int): SubLine {
    SubLine(r.plan, r.expiresAt, r.expiresAt > now)
  }

  /**
    `cb_my_subs`: the user's rows, latest expiry first, each marked active or
    expired. The query and the edit of the chat message share one `try`, so
    a failed query and a failed edit (Telegram refusing it, for one) both
    end in the error text.
   */
  function MySubs(s: Store, userId: int, now: int, queryOk: bool, editOk: bool): (v: SubsView)
    ensures v == FetchFailed <==> !queryOk || !editOk
    ensures v.Listing? ==> |v.lines| == |Restrict(s, {userId})| > 0
  {
    if !queryOk || !editOk then FetchFailed
    else
      var rows := SortByExpiryDesc(Restrict(s, {userId}));
      if rows == [] then NoSubscriptions
      else Listing(seq(|rows|, i requires 0 <= i < |rows| => Line(rows[i], now)))
  }

  /**
    Both redirect URLs exist exactly when the configured base is non-empty
    after stripping, and each is that base plus its path, with a single `/`
    at the seam.
   */
  lemma RedirectUrlsShape(appBaseUrl: Option<string>, baseUrl: Option<string>)
    ensures var b := BaseUrl(appBaseUrl, baseUrl);
      var urls := RedirectUrls(b);
      && (urls.0.Some? <==> b != "") && (urls.1.Some? <==> b != "")
      && (b != "" ==> b[|b| - 1] != '/' && urls.0.value == b + "/paid/success" && urls.1.value == b + "/paid/fail")
  {
  }

  /** A user without rows gets the "no subscriptions" text, and only such a user. */
  lemma MySubsEmptyIffNoRows(s: Store, userId: int, now: int)
    ensures MySubs(s, userId, now, true, true) == NoSubscriptions <==> !HasUser(s, userId)
  {
    var rows := SortByExpiryDesc(Restrict(s, {userId}));
    if HasUser(s, userId) {
      var i :| 0 <= i < |s| && s[i].userId == userId;
      assert s[i] in Restrict(s, {userId});
      assert s[i] in multiset(rows);
    }
  }

  /** Line `i` shows row `i`: its plan, its expiry, and whether it is still in force at `now`. */
  predicate Shows(lines: seq<SubLine>, rows: seq<Row>, now: int) {
    && |rows| == |lines|
    && forall i :: 0 <= i < |lines| ==>
         lines[i].plan == rows[i].plan && lines[i].expiresAt == rows[i].expiresAt
         && (lines[i].active <==> rows[i].expiresAt > now)
  }

  /**
    The listing holds exactly the user's rows (as a multiset), latest expiry
    first, and marks a row active exactly when it expires after `now`.
   */
  lemma MySubsListsUserRows(s: Store, userId: int, now: int)
    ensures MySubs(s, userId, now, true, true).Listing? ==>
      exists rows: seq<Row> :: multiset(rows) == multiset(Restrict(s, {userId})) && SortedDesc(rows)
        && Shows(MySubs(s, userId, now, true, true).lines, rows, now)
  {
    var rows := SortByExpiryDesc(Restrict(s, {userId}));
    if |rows| > 0 {
      var lines := MySubs(s, userId, now, true, true).lines;
      assert forall i :: 0 <= i < |lines| ==> lines[i] == Line(rows[i], now);
      assert Shows(lines, rows, now);
    }
  }
}
