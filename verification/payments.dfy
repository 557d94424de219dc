/**
  `create_invoice` of app/payments.py: choosing between the local mock link
  and the payment processor's `POST /links`, building the mock URL and the
  real request payload, and mapping the processor's answer to a result.
  Amounts are integer kopecks; the HTTP exchange is an opaque `HttpAnswer`.
 */
module Payments {
  import opened Wrappers
  import opened PyText
  import opened PyJson
  import UrlQuery

  /** The process environment the module reads at import time (`None` = unset). */
  datatype Env = Env(
    wataBaseUrl: Option<string>,
    wataToken: Option<string>,
    appBaseUrl: Option<string>,
    paymentsMode: Option<string>)

  datatype Config = Config(wataBaseUrl: string, wataToken: Option<string>, appBaseUrl: string, mode: string)

  const DefaultWataBaseUrl: string := "https://api-sandbox.wata.pro/api/h2h"

  /** `url` is `raw` with its trailing `/` characters, and only those, removed. */
  predicate SlashStripped(raw: string, url: string) {
    && |url| <= |raw| && url == raw[..|url|]
    && (forall i :: |url| <= i < |raw| ==> raw[i] == '/')
    && (url == [] || url[|url| - 1] != '/')
  }

  /** The module-level constants: defaults applied, trailing `/` stripped from both base URLs. */
  function LoadConfig(env: Env): (c: Config)
    ensures SlashStripped(env.wataBaseUrl.GetOr(DefaultWataBaseUrl), c.wataBaseUrl)
    ensures SlashStripped(env.appBaseUrl.GetOr(""), c.appBaseUrl)
    ensures env.appBaseUrl.None? ==> c.appBaseUrl == ""
    ensures c.wataToken == env.wataToken
    ensures env.paymentsMode.Some? ==> c.mode == env.paymentsMode.value
    ensures env.paymentsMode.None? ==> c.mode == "real"
  {
    Config(
      RStripChar(env.wataBaseUrl.GetOr(DefaultWataBaseUrl), '/'),
      env.wataToken,
      RStripChar(env.appBaseUrl.GetOr(""), '/'),
      env.paymentsMode.GetOr("real"))
  }

  /** Mock mode: requested explicitly, or no (or an empty) processor token. */
  predicate MockMode(c: Config) {
    c.mode == "mock" || c.wataToken.None? || |c.wataToken.value| == 0
  }

  /** Mock mode follows the environment: `PAYMENTS_MODE=mock`, or no (or an empty) `WATA_TOKEN`. */
  lemma MockModeOfEnv(env: Env)
    ensures MockMode(LoadConfig(env)) <==>
      env.paymentsMode == Some("mock") || env.wataToken.None? || env.wataToken == Some("")
  {
  }

  datatype InvoiceArgs = InvoiceArgs(
    userId: int,
    amountKopecks: int,
    plan: string,
    successUrl: Option<string>,
    failUrl: Option<string>,
    orderId: Option<string>)

  /** A Python string is truthy when it is neither `None` nor empty. */
  predicate Present(s: Option<string>) {
    s.Some? && |s.value| > 0
  }

  /** `order_id or user_id`, rendered as text. */
  function OrderRef(a: InvoiceArgs): (r: string)
    ensures Present(a.orderId) ==> r == a.orderId.value
    ensures !Present(a.orderId) ==> ParseInt(r) == Some(a.userId)
  {
    if Present(a.orderId) then a.orderId.value
    else
      ParseIntStr(a.userId);
      IntStr(a.userId)
  }

  /** `f"{amount:.2f}"` for an amount held in kopecks. */
  function AmountText(kopecks: int): string {
    var m := if kopecks < 0 then -kopecks else kopecks;
    var frac := m % 100;
    (if kopecks < 0 then "-" else "") + NatStr(m / 100) + "." + [DigitChar(frac / 10), DigitChar(frac % 10)]
  }

  /** `t` is whole units, a `.` and two digits, together worth `kopecks`. */
  predicate ReadsAsKopecks(t: string, kopecks: int) {
    && |t| >= 4 && t[|t| - 3] == '.'
    && AllDigits(t[..|t| - 3]) && AllDigits(t[|t| - 2..])
    && DigitsValue(t[..|t| - 3]) * 100 + DigitsValue(t[|t| - 2..]) == kopecks
  }

  /** The two-decimal text of a non-negative amount reads back as that many kopecks: whole units, a `.`, two digits. */
  lemma AmountTextValue(kopecks: nat)
    ensures ReadsAsKopecks(AmountText(kopecks), kopecks)
  {
    var t := AmountText(kopecks);
    var whole := NatStr(kopecks / 100);
    var frac := [DigitChar(kopecks % 100 / 10), DigitChar(kopecks % 100 % 10)];
    assert t == whole + "." + frac;
    assert t[..|t| - 3] == whole;
    assert t[|t| - 2..] == frac;
    assert frac[..1] == [frac[0]];
    assert DigitsValue(frac) == DigitsValue([frac[0]]) * 10 + DigitValue(frac[1]);
    assert [frac[0]][..0] == [];
  }

  /** The query fields of the mock link for the given field texts, in the order the f-string writes them. */
  function MockFields(userId: string, plan: string, amount: string, orderRef: string): seq<(string, string)> {
    [("user_id", userId), ("plan", plan), ("amount", amount), ("orderId", orderRef)]
  }

  /** The query of the mock link: the fields `user_id`, `plan`, `amount` and `orderId`, joined by `&`. */
  function MockQuery(userId: string, plan: string, amount: string, orderRef: string): (q: string)
    ensures UrlQuery.EndsWith(q, orderRef)
  {
    var head := UrlQuery.Field("user_id", userId) + "&" + UrlQuery.Field("plan", plan) + "&"
      + UrlQuery.Field("amount", amount) + "&";
    var last := UrlQuery.Field("orderId", orderRef);
    UrlQuery.EndsWithCat("orderId" + "=", orderRef, orderRef);
    UrlQuery.EndsWithCat(head, last, orderRef);
    head + last
  }

  /** The link for given field texts: the test page under `base` with the mock query. */
  function MockLinkOf(base: string, userId: string, plan: string, amount: string, orderRef: string): (link: string)
    ensures |link| > |base| && link[..|base|] == base && UrlQuery.EndsWith(link, orderRef)
  {
    var q := MockQuery(userId, plan, amount, orderRef);
    Framed(base, "/testpay?", q, orderRef);
    base + "/testpay?" + q
  }

  /** The mock payment page link of one invoice. */
  function MockLink(base: string, a: InvoiceArgs): (link: string)
    ensures |link| > |base| && link[..|base|] == base
    ensures UrlQuery.EndsWith(link, OrderRef(a))
  {
    MockLinkOf(base, IntStr(a.userId), a.plan, AmountText(a.amountKopecks), OrderRef(a))
  }

  /** The mock query is the query of `MockFields`, as the reader sees it. */
  lemma MockQueryIsQuery(u: string, p: string, am: string, o: string)
    ensures MockQuery(u, p, am, o) == UrlQuery.Query(MockFields(u, p, am, o))
  {
    UrlQuery.QueryOfFour("user_id", u, "plan", p, "amount", am, "orderId", o);
  }

  /** `base + page + q` starts with `base` and ends with whatever `q` ends with. */
  lemma Framed(base: string, page: string, q: string, v: string)
    requires |page| > 0 && UrlQuery.EndsWith(q, v)
    ensures var link := base + page + q;
      && |link| > |base| && link[..|base|] == base && UrlQuery.EndsWith(link, v)
  {
    var link := base + page + q;
    assert link[..|base|] == base;
    UrlQuery.EndsWithCat(base + page, q, v);
  }

  /** Each field of a mock query reads back, provided no value holds an `&`. */
  lemma MockQueryReadBack(u: string, p: string, am: string, o: string)
    requires UrlQuery.Lacks(u, '&') && UrlQuery.Lacks(p, '&') && UrlQuery.Lacks(am, '&') && UrlQuery.Lacks(o, '&')
    ensures var q := UrlQuery.Query(MockFields(u, p, am, o));
      && UrlQuery.FieldValue(q, "user_id") == Some(u)
      && UrlQuery.FieldValue(q, "plan") == Some(p)
      && UrlQuery.FieldValue(q, "amount") == Some(am)
      && UrlQuery.FieldValue(q, "orderId") == Some(o)
  {
    var fs := MockFields(u, p, am, o);
    forall i | 0 <= i < |fs|
      ensures UrlQuery.Lacks(fs[i].0, '=') && UrlQuery.Lacks(fs[i].0, '&')
    {
      var key := fs[i].0;
      assert forall k :: 0 <= k < |key| ==> 'a' <= key[k] <= 'z' || 'A' <= key[k] <= 'Z' || key[k] == '_';
    }
    assert UrlQuery.Readable(fs);
    assert "orderId"[0] != "user_id"[0];
    UrlQuery.ReadBack(fs, 0);
    UrlQuery.ReadBack(fs, 1);
    UrlQuery.ReadBack(fs, 2);
    UrlQuery.ReadBack(fs, 3);
  }

  /** The text of an integer holds digits and perhaps a leading `-`, never `&`. */
  lemma IntStrLacksAmp(i: int)
    ensures UrlQuery.Lacks(IntStr(i), '&')
  {
    var digits := NatStr(if i < 0 then -i else i);
    assert forall m :: 0 <= m < |digits| ==> IsDigit(digits[m]);
  }

  lemma AmountTextLacksAmp(kopecks: int)
    ensures UrlQuery.Lacks(AmountText(kopecks), '&')
  {
    var m := if kopecks < 0 then -kopecks else kopecks;
    var whole := NatStr(m / 100);
    assert forall k :: 0 <= k < |whole| ==> IsDigit(whole[k]);
  }

  /**
    The mock payment page reads back what `create_invoice` put in the link:
    the user id, the plan, the amount in kopecks and the order reference,
    provided the plan and the order reference hold no `&` (nothing in the
    link is escaped, so an `&` would cut the field short).
   */
  lemma MockLinkReadBack(base: string, a: InvoiceArgs)
    requires UrlQuery.Lacks(a.plan, '&') && UrlQuery.Lacks(OrderRef(a), '&')
    ensures var link := MockLink(base, a);
      && |link| >= |base| + 9 && link[..|base| + 9] == base + "/testpay?"
    ensures var q := MockLink(base, a)[|base| + 9..];
      && UrlQuery.FieldValue(q, "user_id") == Some(IntStr(a.userId))
      && ParseInt(UrlQuery.FieldValue(q, "user_id").value) == Some(a.userId)
      && UrlQuery.FieldValue(q, "plan") == Some(a.plan)
      && UrlQuery.FieldValue(q, "amount") == Some(AmountText(a.amountKopecks))
      && (a.amountKopecks >= 0 ==> ReadsAsKopecks(UrlQuery.FieldValue(q, "amount").value, a.amountKopecks))
      && UrlQuery.FieldValue(q, "orderId") == Some(OrderRef(a))
  {
    var u, am, o := IntStr(a.userId), AmountText(a.amountKopecks), OrderRef(a);
    MockQueryIsQuery(u, a.plan, am, o);
    var q := UrlQuery.Query(MockFields(u, a.plan, am, o));
    assert MockLink(base, a) == base + "/testpay?" + q;
    assert MockLink(base, a)[|base| + 9..] == q;
    IntStrLacksAmp(a.userId);
    AmountTextLacksAmp(a.amountKopecks);
    MockQueryReadBack(u, a.plan, am, o);
    ParseIntStr(a.userId);
    if a.amountKopecks >= 0 {
      AmountTextValue(a.amountKopecks);
    }
  }

  /** The JSON body of `POST /links`; a redirect URL is `None` when the key is left out. */
  datatype Payload = Payload(
    amountKopecks: int,
    currency: string,
    description: string,
    orderId: string,
    successRedirectUrl: Option<string>,
    failRedirectUrl: Option<string>)

  function OptionalUrl(u: Option<string>): Option<string> {
    if Present(u) then u else None
  }

  /**
    The payload of a real request: the amount in roubles, the description
    `<plan> user <user id>`, the order reference, and each redirect URL only
    when it is given and non-empty.
   */
  function BuildPayload(a: InvoiceArgs): (p: Payload)
    ensures p.amountKopecks == a.amountKopecks && p.currency == "RUB"
    ensures p.orderId == OrderRef(a)
    ensures p.successRedirectUrl.Some? <==> Present(a.successUrl)
    ensures p.successRedirectUrl.Some? ==> p.successRedirectUrl == a.successUrl
    ensures p.failRedirectUrl.Some? <==> Present(a.failUrl)
    ensures p.failRedirectUrl.Some? ==> p.failRedirectUrl == a.failUrl
  {
    Payload(a.amountKopecks, "RUB", a.plan + " user " + IntStr(a.userId), OrderRef(a),
            OptionalUrl(a.successUrl), OptionalUrl(a.failUrl))
  }

  /** What the processor answered; `body` is None when it is not JSON. */
  datatype HttpAnswer = NoAnswer | Answer(status: int, body: Option<Json>)

  /** Why `create_invoice` raised something other than `requests.HTTPError`. */
  datatype Failure = MissingAppBaseUrl | TransportFailed | BodyNotJson

  datatype InvoiceResult =
    | Invoice(body: Json)       // the returned dictionary (or whatever JSON came back)
    | HttpError(status: int)    // `requests.HTTPError` for a status of 400 or more
    | Failed(reason: Failure)   // any other exception

  /** `create_invoice(...)`; `answer` is consulted only in real mode. */
  function CreateInvoice(c: Config, a: InvoiceArgs, answer: HttpAnswer): (r: InvoiceResult)
    ensures MockMode(c) && c.appBaseUrl == "" ==> r == Failed(MissingAppBaseUrl)
    ensures MockMode(c) && c.appBaseUrl != "" ==>
      r == Invoice(JObject(map["id" := JStr("mock"), "url" := JStr(MockLink(c.appBaseUrl, a)), "status" := JStr("Opened")]))
    ensures !MockMode(c) ==> (r.HttpError? <==> answer.Answer? && answer.status >= 400)
    ensures !MockMode(c) && r.Invoice? ==> answer.Answer? && answer.status < 400 && answer.body == Some(r.body)
    ensures !MockMode(c) && answer.Answer? && answer.status < 400 && answer.body.Some? ==> r == Invoice(answer.body.value)
    ensures !MockMode(c) && answer.NoAnswer? ==> r == Failed(TransportFailed)
    ensures !MockMode(c) && answer.Answer? && answer.status < 400 && answer.body.None? ==> r == Failed(BodyNotJson)
  {
    if MockMode(c) then
      if c.appBaseUrl == "" then Failed(MissingAppBaseUrl)
      else
        Invoice(JObject(map["id" := JStr("mock"), "url" := JStr(MockLink(c.appBaseUrl, a)), "status" := JStr("Opened")]))
    else
      match answer
      case NoAnswer => Failed(TransportFailed)
      case Answer(status, body) =>
        if status >= 400 then HttpError(status)
        else if body.None? then Failed(BodyNotJson)
        else Invoice(body.value)
  }
}
