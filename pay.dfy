/** The `POST /api/pay` route: two guards on the JSON body, the return URL,
    one call to the payment provider, and the classification of its reply.
    The provider call itself is not modelled; its reply is an input. */
module Pay {
  import opened Common

  const DefaultHost: string := "storyvoter.vercel.app"
  const AuthRequiredMessage: string := "Необходима авторизация"
  const AmountRequiredMessage: string := "Укажите сумму оплаты"
  const PaymentFailedMessage: string := "Ошибка создания платежа"
  const ServerErrorMessage: string := "Внутренняя ошибка сервера"

  /** The `amount` field of the body: absent, a JSON number (whole roubles),
      or a JSON string. */
  datatype Amount = NoAmount | Number(value: int) | Text(text: string)

  /** `!!amount` */
  predicate AmountTruthy(a: Amount)
  {
    match a
    case NoAmount => false
    case Number(v) => v != 0
    case Text(t) => t != ""
  }

  /** The request body: either it does not parse as a JSON object, or it
      carries an amount and a user id. */
  datatype RequestBody = Unparsable | Body(amount: Amount, userId: Option<string>)

  datatype Confirmation = Confirmation(confirmationUrl: Option<string>)

  /** The provider's answer: the request or its JSON decoding threw, or a
      JSON object with these fields. */
  datatype ProviderReply =
    | ProviderThrew
    | ProviderJson(id: Option<string>, confirmation: Option<Confirmation>, description: Option<string>)

  /** The part of the provider request this model keeps. */
  datatype ProviderRequest = ProviderRequest(amount: int, returnUrl: string)

  datatype PayResponse =
    | PaymentCreated(confirmationUrl: string, paymentId: Option<string>)   // status 200
    | PayError(status: int, error: string)

  /** `https://${host || 'storyvoter.vercel.app'}/payment-success` */
  function ReturnUrl(host: Option<string>): string
  {
    "https://" + (if Truthy(host) then host.value else DefaultHost) + "/payment-success"
  }

  /** The URL is the secure scheme, the request's host (or the default when
      the header is missing or empty) and the success path, and nothing else. */
  lemma ReturnUrlShape(host: Option<string>)
    ensures var u := ReturnUrl(host);
            var h := if Truthy(host) then host.value else DefaultHost;
            |u| == 8 + |h| + 16 &&
            u[..8] == "https://" && u[8..8 + |h|] == h && u[8 + |h|..] == "/payment-success"
  {
    var h := if Truthy(host) then host.value else DefaultHost;
    var u := ReturnUrl(host);
    assert u == "https://" + h + "/payment-success";
    assert u[..8] == "https://";
    assert u[8..8 + |h|] == h;
    assert u[8 + |h|..] == "/payment-success";
  }

  /** The provider request the route sends, if it gets that far: both guards
      passed and `amount.toFixed(2)` did not throw (it does for a string). */
  function ProviderCall(body: RequestBody, host: Option<string>): Option<ProviderRequest>
  {
    match body
    case Unparsable => None
    case Body(amount, userId) =>
      if Truthy(userId) && AmountTruthy(amount) && amount.Number? then
        Some(ProviderRequest(amount.value, ReturnUrl(host)))
      else None
  }

  /** The whole handler, from body, `host` header and provider reply to the
      response. */
  function Post(body: RequestBody, host: Option<string>, reply: ProviderReply): PayResponse
  {
    match body
    case Unparsable => PayError(500, ServerErrorMessage)
    case Body(amount, userId) =>
      if !Truthy(userId) then PayError(401, AuthRequiredMessage)
      else if !AmountTruthy(amount) then PayError(400, AmountRequiredMessage)
      else if !amount.Number? then PayError(500, ServerErrorMessage)
      else
        match reply
        case ProviderThrew => PayError(500, ServerErrorMessage)
        case ProviderJson(id, confirmation, description) =>
          if confirmation.Some? && Truthy(confirmation.value.confirmationUrl) then
            PaymentCreated(confirmation.value.confirmationUrl.value, id)
          else
            PayError(400, if Truthy(description) then description.value else PaymentFailedMessage)
  }

  /** Without a user id the answer is 401, whatever the amount: the user
      check comes first. */
  lemma UserCheckedFirst(amount: Amount, userId: Option<string>, host: Option<string>, reply: ProviderReply)
    requires !Truthy(userId)
    ensures Post(Body(amount, userId), host, reply) == PayError(401, AuthRequiredMessage)
    ensures ProviderCall(Body(amount, userId), host) == None
  {
  }

  /** With a user id and a falsy amount (absent, 0 or "") the answer is 400
      and the provider is not called. */
  lemma AmountCheckedSecond(amount: Amount, userId: Option<string>, host: Option<string>, reply: ProviderReply)
    requires Truthy(userId) && !AmountTruthy(amount)
    ensures Post(Body(amount, userId), host, reply) == PayError(400, AmountRequiredMessage)
    ensures ProviderCall(Body(amount, userId), host) == None
  {
  }

  /** A payment is created exactly when the provider was called and answered
      with a non-empty confirmation URL; the response then carries that URL
      and the provider's payment id. */
  lemma CreatedIffConfirmationUrl(body: RequestBody, host: Option<string>, reply: ProviderReply)
    ensures Post(body, host, reply).PaymentCreated? <==>
              ProviderCall(body, host).Some? && reply.ProviderJson? &&
              reply.confirmation.Some? && Truthy(reply.confirmation.value.confirmationUrl)
    ensures Post(body, host, reply).PaymentCreated? ==>
              Post(body, host, reply) == PaymentCreated(reply.confirmation.value.confirmationUrl.value, reply.id) &&
              Post(body, host, reply).confirmationUrl != ""
  {
  }

  /** When the provider answers without a confirmation URL the route answers
      400 with the provider's description, or the default message when the
      description is missing or empty. */
  lemma ProviderRefusalIs400(body: RequestBody, host: Option<string>, reply: ProviderReply)
    requires ProviderCall(body, host).Some? && reply.ProviderJson?
    requires !(reply.confirmation.Some? && Truthy(reply.confirmation.value.confirmationUrl))
    ensures Post(body, host, reply) ==
              PayError(400, if Truthy(reply.description) then reply.description.value else PaymentFailedMessage)
  {
  }

  /** Everything that throws inside the handler is answered with 500: a body
      that does not parse, a string amount, a provider call that fails. */
  lemma ThrownIs500(body: RequestBody, host: Option<string>, reply: ProviderReply)
    requires body.Unparsable? ||
             (Truthy(body.userId) && AmountTruthy(body.amount) && body.amount.Text?) ||
             (ProviderCall(body, host).Some? && reply.ProviderThrew?)
    ensures Post(body, host, reply) == PayError(500, ServerErrorMessage)
  {
  }

  /** Every error response carries a non-empty message and one of the three
      statuses; every success carries a non-empty URL. */
  lemma ResponsesAreTruthy(body: RequestBody, host: Option<string>, reply: ProviderReply)
    ensures var r := Post(body, host, reply);
            (r.PayError? ==> r.error != "" && r.status in {400, 401, 500}) &&
            (r.PaymentCreated? ==> r.confirmationUrl != "")
  {
  }
}
