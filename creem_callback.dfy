/**
 * `GET /api/pay/callback/creem`: the payment provider sends the buyer back
 * here. The checkout is fetched and checked step by step; only a checkout
 * that passes every check updates the order and redirects to the success
 * page, anything else redirects to the failure page.
 */
module CreemCallback {

  import opened Wrappers
  import opened Js
  import opened Ledger

  /** The query parameters; `None` when a parameter is absent. */
  datatype Query = Query(checkoutId: Option<string>, requestId: Option<string>, locale: Option<string>)

  /** The checkout's customer: absent, a bare id, or an object that may lack an `email` key. */
  datatype Customer = NoCustomer | CustomerId(id: string) | CustomerObject(email: Option<string>)

  datatype Order = Order(status: string)

  /** What `retrieveCheckout` gave: a throw, or the checkout with its `JSON.stringify` text. */
  datatype Retrieved =
    | RetrieveThrew
    | Checkout(requestId: Option<string>, order: Option<Order>, customer: Customer, json: string)

  /** `NEXT_PUBLIC_PAY_SUCCESS_URL` and `NEXT_PUBLIC_PAY_FAIL_URL`. */
  datatype PayUrls = PayUrls(success: Option<string>, fail: Option<string>)

  datatype Redirect = Redirect(href: string, locale: string)

  /** The parameters are both present and non-empty. */
  predicate ParamsPresent(q: Query)
  {
    q.checkoutId.Some? && q.checkoutId.value != [] && q.requestId.Some? && q.requestId.value != []
  }

  /** The checks on a retrieved checkout, in the order the handler makes them. */
  predicate CheckoutValid(q: Query, c: Retrieved)
  {
    && c.Checkout?
    && c.requestId == q.requestId
    && c.order.Some? && c.order.value.status == "paid"
    && c.customer.CustomerObject? && c.customer.email.Some?
  }

  /** The order update a valid checkout makes. */
  function UpdateOf(c: Retrieved): OrderUpdate
    requires c.Checkout? && c.requestId.Some? && c.customer.CustomerObject?
  {
    OrderUpdate(c.requestId.value, c.customer.email, c.json)
  }

  /** The handler; `updateFails` says whether `updateOrder` throws. */
  function CallbackSpec(st: State, q: Query, retrieved: Retrieved, updateFails: bool, urls: PayUrls): (Redirect, State)
  {
    var locale := OrElse(q.locale, "en");
    var fail := Redirect(OrElse(urls.fail, "/"), locale);
    if !ParamsPresent(q) then (fail, st)
    else
      var st1 := st.Called(RetrieveCheckout(q.checkoutId.value));
      if !CheckoutValid(q, retrieved) then (fail, st1)
      else if updateFails then (fail, st1)
      else (Redirect(OrElse(urls.success, "/"), locale), st1.OrderUpdated(UpdateOf(retrieved)))
  }

  method Callback(b: Backend, q: Query, retrieved: Retrieved, updateFails: bool, urls: PayUrls) returns (r: Redirect)
    modifies b
    ensures (r, b.Snapshot()) == CallbackSpec(old(b.Snapshot()), q, retrieved, updateFails, urls)
  {
    var locale := OrElse(q.locale, "en");
    var redirectUrl := "";
    var ok := true;
    if q.checkoutId.None? || q.checkoutId.value == [] || q.requestId.None? || q.requestId.value == [] {
      ok := false;
    } else {
      b.Call(RetrieveCheckout(q.checkoutId.value));
      if retrieved.RetrieveThrew? || retrieved.requestId != q.requestId {
        ok := false;
      } else if retrieved.order.None? || retrieved.order.value.status != "paid" {
        ok := false;
      } else if !retrieved.customer.CustomerObject? || retrieved.customer.email.None? {
        ok := false;
      } else if updateFails {
        ok := false;
      } else {
        b.UpdateOrder(OrderUpdate(retrieved.requestId.value, retrieved.customer.email, retrieved.json));
        redirectUrl := OrElse(urls.success, "/");
      }
    }
    if !ok {
      redirectUrl := OrElse(urls.fail, "/");
    }
    r := Redirect(redirectUrl, locale);
  }

  /**
   * Each failed check sends the buyer to the failure page (or `/`) and
   * updates no order: missing parameters before the provider is asked, then
   * a request id that differs, an order missing or not paid, and a customer
   * that is missing, a bare id or without e-mail.
   */
  lemma FailedChecksRedirectToFail(st: State, q: Query, retrieved: Retrieved, updateFails: bool, urls: PayUrls)
    ensures var (r, st') := CallbackSpec(st, q, retrieved, updateFails, urls);
      && (!ParamsPresent(q) ==> st' == st)
      && ((!ParamsPresent(q) || !CheckoutValid(q, retrieved) || updateFails) ==>
            r.href == OrElse(urls.fail, "/") && st'.orders == st.orders)
      && (ParamsPresent(q) && retrieved.Checkout? && retrieved.requestId != q.requestId ==> r.href == OrElse(urls.fail, "/"))
      && (ParamsPresent(q) && retrieved.Checkout? && (retrieved.order.None? || retrieved.order.value.status != "paid") ==>
            r.href == OrElse(urls.fail, "/"))
      && (ParamsPresent(q) && retrieved.Checkout? && (retrieved.customer.NoCustomer? || retrieved.customer.CustomerId?
                                                     || retrieved.customer == CustomerObject(None)) ==>
            r.href == OrElse(urls.fail, "/"))
  {
  }

  /**
   * A checkout that passes all checks updates its order once, with the
   * request id as order number and the customer's e-mail as paid e-mail,
   * and redirects to the success page (or `/`).
   */
  lemma ValidCheckoutUpdatesOrder(st: State, q: Query, retrieved: Retrieved, urls: PayUrls)
    requires ParamsPresent(q) && CheckoutValid(q, retrieved)
    ensures var (r, st') := CallbackSpec(st, q, retrieved, false, urls);
      && r.href == OrElse(urls.success, "/")
      && st'.orders == st.orders + [OrderUpdate(q.requestId.value, retrieved.customer.email, retrieved.json)]
      && st'.credits == st.credits && st'.transactions == st.transactions
  {
  }

  /**
   * The locale is the parameter, or `en` when it is absent or empty;
   * whatever happens, only orders and provider calls change.
   */
  lemma LocaleAndFrame(st: State, q: Query, retrieved: Retrieved, updateFails: bool, urls: PayUrls)
    ensures var (r, st') := CallbackSpec(st, q, retrieved, updateFails, urls);
      && r.locale == (if q.locale.Some? && q.locale.value != [] then q.locale.value else "en")
      && st' == st.(orders := st'.orders, calls := st'.calls)
      && (r.href == OrElse(urls.success, "/") && OrElse(urls.success, "/") != OrElse(urls.fail, "/") ==>
            |st'.orders| == |st.orders| + 1)
  {
  }
}
