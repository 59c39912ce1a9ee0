/** The `POST` handler of app/api/views/route.ts: validates the body, takes
    the client address from `x-forwarded-for` and records the view. */
module ViewsRoute {
  import opened Nullable
  import opened JsText
  import opened Thrown
  import opened ViewRepository

  const UnknownIp: string := "unknown"
  const MissingPostId: string := "postId is required"
  const TrackFailedPrefix: string := "Failed to track view: "
  const UnknownError: string := "Unknown error"

  /** `forwarded ? forwarded.split(",")[0].trim() : "unknown"`. */
  function ClientIp(forwarded: Option<string>): (ip: string)
    ensures !Truthy(forwarded) ==> ip == UnknownIp
    ensures Truthy(forwarded) ==> ',' !in ip
  {
    if Truthy(forwarded) then
      var first := Split(forwarded.value, ',')[0];
      TrimKeepsCharacters(first, ',');
      Trim(first)
    else UnknownIp
  }

  /** With several hops listed, the address is the trimmed first one. */
  lemma ClientIpIsFirstHop(first: string, rest: string)
    requires ',' !in first
    ensures ClientIp(Some(first + [','] + rest)) == Trim(first)
  {
    SplitAtFirst(first, ',', rest);
  }

  /** A header naming a single address yields that address, trimmed. */
  lemma ClientIpOfOneHop(address: string)
    requires address != "" && ',' !in address
    ensures ClientIp(Some(address)) == Trim(address)
  {
    SplitWithoutSeparator(address, ',');
  }

  /** The parsed JSON body, or what `request.json()` threw. */
  datatype RequestBody = Parsed(postId: Option<string>) | ParseThrew(thrown: Thrown)

  datatype ResponseBody = Success(isNewView: bool) | Failure(error: string)
  datatype Response = Response(status: nat, body: ResponseBody)

  /** The response and the view store after the request. */
  datatype Handled = Handled(response: Response, store: ViewStore)

  function Failed(t: Thrown): Response {
    Response(500, Failure(TrackFailedPrefix + MessageOr(t, UnknownError)))
  }

  /** `POST`. `failure` is what the store throws when `trackView` fails, in
      which case the store is left as it was. */
  function HandlePost(body: RequestBody, forwarded: Option<string>, store: ViewStore, now: int,
                      failure: Option<Thrown>): (h: Handled)
    ensures body.ParseThrew? ==> h == Handled(Failed(body.thrown), store)
    ensures body.Parsed? && !Truthy(body.postId) ==> h == Handled(Response(400, Failure(MissingPostId)), store)
    ensures body.Parsed? && Truthy(body.postId) && failure.Some? ==> h == Handled(Failed(failure.value), store)
    ensures body.Parsed? && Truthy(body.postId) && failure.None? ==>
              var t := TrackView(store, body.postId.value, ClientIp(forwarded), now);
              h == Handled(Response(200, Success(t.isNewView)), t.store)
  {
    match body
    case ParseThrew(t) => Handled(Failed(t), store)
    case Parsed(postId) =>
      if !Truthy(postId) then Handled(Response(400, Failure(MissingPostId)), store)
      else if failure.Some? then Handled(Failed(failure.value), store)
      else
        var t := TrackView(store, postId.value, ClientIp(forwarded), now);
        Handled(Response(200, Success(t.isNewView)), t.store)
  }

  /** Status codes and the store: 400 exactly for a parsed body without a
      usable `postId`; every 500 carries the `Failed to track view: ` prefix;
      only a successful response changes the store, by at most one row. */
  lemma ResponseShapes(body: RequestBody, forwarded: Option<string>, store: ViewStore, now: int,
                       failure: Option<Thrown>)
    ensures var h := HandlePost(body, forwarded, store, now, failure);
            && (h.response.status == 400 <==> body.Parsed? && !Truthy(body.postId))
            && (h.response.status == 500 ==> h.response.body.Failure? && TrackFailedPrefix <= h.response.body.error)
            && (h.response.status == 200 <==> h.response.body.Success?)
            && (h.store != store ==> h.response.status == 200 && |h.store.records| == |store.records| + 1)
  {
  }

  /** A non-`Error` thrown value is reported as `Unknown error`. */
  lemma NonErrorMessage(forwarded: Option<string>, store: ViewStore, now: int)
    ensures HandlePost(Parsed(Some("p")), forwarded, store, now, Some(OtherValue)).response.body
            == Failure("Failed to track view: Unknown error")
  {
  }
}
