/** The top-up page: three packages of "lightning" paid votes, their prices,
    and `handlePayment`, which posts the amount to the payment route and
    reacts to its JSON answer. */
module Buy {
  import opened Common
  import Pay

  /** The packages on offer, in display order, counted in ⚡. */
  const Packages: seq<int> := [1, 3, 7]

  /** One ⚡ costs 150 roubles ... */
  const RoublesPerBolt: int := 150

  /** ... and is advertised as worth 3 ordinary votes. */
  const PointsPerBolt: int := 3

  const PaymentInitFailedMessage: string := "Произошла ошибка при инициации оплаты."

  /** What one package button shows. */
  datatype PackageCard = PackageCard(bolts: int, ordinaryVotes: int, priceRoubles: int)

  function PackageCardFor(n: int): PackageCard
  {
    PackageCard(n, n * PointsPerBolt, n * RoublesPerBolt)
  }

  function PackageCards(): seq<PackageCard>
  {
    seq(|Packages|, i requires 0 <= i < |Packages| => PackageCardFor(Packages[i]))
  }

  /** Exactly three buttons: 1 ⚡ for 150 roubles shown as 3 ordinary votes,
      3 ⚡ for 450 as 9, 7 ⚡ for 1050 as 21. */
  lemma PackageListing()
    ensures PackageCards() == [PackageCard(1, 3, 150), PackageCard(3, 9, 450), PackageCard(7, 21, 1050)]
  {
    assert PackageCards()[0] == PackageCard(1, 3, 150);
    assert PackageCards()[1] == PackageCard(3, 9, 450);
    assert PackageCards()[2] == PackageCard(7, 21, 1050);
  }

  /** The body `handlePayment(qty)` posts: `{ amount: qty * 150, userId }`. */
  function PaymentBody(qty: int, user: UserId): Pay.RequestBody
  {
    Pay.Body(Pay.Number(qty * RoublesPerBolt), Some(user))
  }

  /** The amount posted for a button is the price that button shows. */
  lemma AmountIsDisplayedPrice(k: nat, user: UserId)
    requires k < |Packages|
    ensures PaymentBody(Packages[k], user).amount == Pay.Number(PackageCards()[k].priceRoubles)
    ensures PackageCards()[k].ordinaryVotes == PackageCards()[k].bolts * PointsPerBolt
  {
  }

  /** The page's view of the fetch: it threw, or it produced a JSON object
      whose `confirmationUrl` and `error` fields were read. */
  datatype FetchResult = FetchThrew | Json(confirmationUrl: Option<string>, error: Option<string>)

  /** The JSON body the route's response carries. */
  function ResponseJson(r: Pay.PayResponse): FetchResult
  {
    match r
    case PaymentCreated(url, _) => Json(Some(url), None)
    case PayError(_, message) => Json(None, Some(message))
  }

  datatype Reaction = Redirect(url: string) | Alert(message: string) | NoReaction

  /** How the page reacts to the fetch: redirect to a non-empty
      confirmation URL, otherwise alert a non-empty error, or the generic
      message if the request threw; anything else leaves the page as it is. */
  function ReactionTo(res: FetchResult): Reaction
  {
    match res
    case FetchThrew => Alert(PaymentInitFailedMessage)
    case Json(url, error) =>
      if Truthy(url) then Redirect(url.value)
      else if Truthy(error) then Alert(error.value)
      else NoReaction
  }

  /** For a package bought by a signed-in user, every answer of the route
      settles the page: a redirect to the provider's confirmation URL
      exactly when the provider returned one, and otherwise an alert with
      the provider's description or the route's own message. */
  lemma RouteAnswerSettlesPage(k: nat, user: UserId, host: Option<string>, reply: Pay.ProviderReply)
    requires k < |Packages| && user != ""
    ensures var r := ReactionTo(ResponseJson(Pay.Post(PaymentBody(Packages[k], user), host, reply)));
            r != NoReaction &&
            (r.Redirect? <==> reply.ProviderJson? && reply.confirmation.Some? &&
                              Truthy(reply.confirmation.value.confirmationUrl)) &&
            (r.Redirect? ==> r.url == reply.confirmation.value.confirmationUrl.value) &&
            (reply.ProviderThrew? ==> r == Alert(Pay.ServerErrorMessage)) &&
            (reply.ProviderJson? && !r.Redirect? ==>
               r == Alert(if Truthy(reply.description) then reply.description.value else Pay.PaymentFailedMessage))
  {
    var body := PaymentBody(Packages[k], user);
    assert Packages[k] * RoublesPerBolt != 0;
    assert Pay.ProviderCall(body, host).Some?;
    Pay.CreatedIffConfirmationUrl(body, host, reply);
    Pay.ResponsesAreTruthy(body, host, reply);
  }

  class BuyPage {
    var user: Option<UserId>
    var loading: bool
    /** Where `window.location.href` was sent, if anywhere. */
    var location: Option<string>
    /** The alerts shown so far, oldest first. */
    var alerts: seq<string>

    constructor (u: Option<UserId>)
      ensures user == u && !loading && location == None && alerts == []
    {
      user, loading, location, alerts := u, false, None, [];
    }

    /** `handlePayment(qty)`: nothing at all without a user; otherwise the
        page turns to loading, posts `PaymentBody(qty, user)` (returned as
        `sent`), and reacts to `result`. A redirect leaves loading set, an
        alert clears it, and an answer with neither field leaves it set. */
    method HandlePayment(qty: int, result: FetchResult) returns (sent: Option<Pay.RequestBody>)
      modifies this`loading, this`location, this`alerts
      ensures user.None? ==>
                sent == None && loading == old(loading) && location == old(location) && alerts == old(alerts)
      ensures user.Some? ==> sent == Some(PaymentBody(qty, user.value))
      ensures user.Some? && ReactionTo(result).Redirect? ==>
                location == Some(ReactionTo(result).url) && loading && alerts == old(alerts)
      ensures user.Some? && ReactionTo(result).Alert? ==>
                alerts == old(alerts) + [ReactionTo(result).message] && !loading && location == old(location)
      ensures user.Some? && ReactionTo(result).NoReaction? ==>
                loading && location == old(location) && alerts == old(alerts)
    {
      if user.None? {
        return None;
      }
      loading := true;
      sent := Some(PaymentBody(qty, user.value));
      match result {
        case FetchThrew =>
          alerts := alerts + [PaymentInitFailedMessage];
          loading := false;
        case Json(url, error) =>
          if url.Some? && url.value != "" {
            location := Some(url.value);
          } else if error.Some? && error.value != "" {
            alerts := alerts + [error.value];
            loading := false;
          }
      }
    }
  }
}
