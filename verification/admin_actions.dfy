/** `addGonggu` of app/admin/actions.ts: validates the submitted form,
    normalises its optional fields, issues the two repository calls and
    revalidates the home page. What the repositories and the cache answer
    are parameters. */
module AdminActions {
  import opened Nullable
  import opened JsText
  import opened Thrown
  import opened Posts

  const RequiredMissing: string := "필수 항목을 입력해주세요"
  const Registered: string := "공구가 등록되었습니다!"
  const FailurePrefix: string := "공구 등록 실패: "
  const UnknownFailure: string := "알 수 없는 오류"

  /** The form fields; `None` is a field `formData.get` does not find. */
  datatype Form = Form(
    instagramUsername: Option<string>,
    category: Option<string>,
    instagramUrl: Option<string>,
    title: Option<string>,
    price: Option<string>,
    deadline: Option<string>)

  datatype FormState = FormState(success: bool, message: string)

  /** A JavaScript number as the price column receives it. */
  datatype Price = NullPrice | NumberPrice(value: int) | NaNPrice

  datatype SellerRequest = SellerRequest(instagramUsername: string, category: Option<string>)

  datatype PostRequest = PostRequest(
    sellerId: string,
    instagramUrl: string,
    title: string,
    price: Price,
    deadline: Option<string>,
    status: Status)

  /** The page whose cache `revalidatePath` drops after a post is stored. */
  const RevalidatedPath: string := "/"

  /** The repository and cache calls the action makes, in order. */
  datatype Call = FindOrCreateSeller(seller: SellerRequest) | CreatePost(post: PostRequest) | Revalidate(path: string)

  /** What a repository call gives back: a value, or a thrown value. */
  datatype Reply<T> = Returned(value: T) | Threw(thrown: Thrown)

  datatype Submission = Submission(state: FormState, calls: seq<Call>)

  /** `value || null`: the empty string becomes null. */
  function OrNull(value: Option<string>): (r: Option<string>)
    ensures Truthy(value) ==> r == value
    ensures !Truthy(value) ==> r == None
    ensures r.Some? ==> r.value != ""
  {
    if Truthy(value) then value else None
  }

  /** `price ? parseInt(price, 10) : null`. */
  function PriceOf(price: Option<string>): (p: Price)
    ensures !Truthy(price) ==> p == NullPrice
    ensures Truthy(price) ==> (p.NaNPrice? <==> ParseInt(price.value).None?)
  {
    if !Truthy(price) then NullPrice
    else match ParseInt(price.value)
      case Some(n) => NumberPrice(n)
      case None => NaNPrice
  }

  /** A price typed as a decimal integer is stored as that integer. */
  lemma PriceOfNumber(n: int)
    ensures PriceOf(Some(IntToString(n))) == NumberPrice(n)
  {
    ParseIntToString(n);
  }

  /** Text with no leading digit is stored as NaN. */
  lemma PriceOfWords()
    ensures PriceOf(Some("만원")) == NaNPrice
  {
    assert !IsDigit("만원"[0]);
  }

  predicate HasRequired(form: Form) {
    Truthy(form.instagramUsername) && Truthy(form.instagramUrl) && Truthy(form.title)
  }

  function Failed(t: Thrown): FormState {
    FormState(false, FailurePrefix + MessageOr(t, UnknownFailure))
  }

  /** `addGonggu`: `seller` answers the find-or-create call with the
      seller's id; `created` is what the post insert throws, if anything;
      `revalidated` is what `revalidatePath("/")` throws, if anything. */
  function AddGonggu(form: Form, seller: Reply<string>, created: Option<Thrown>, revalidated: Option<Thrown>): (r: Submission)
    ensures !HasRequired(form) ==> r == Submission(FormState(false, RequiredMissing), [])
    ensures HasRequired(form) ==>
              && |r.calls| >= 1
              && r.calls[0] == FindOrCreateSeller(SellerRequest(form.instagramUsername.value, OrNull(form.category)))
    ensures HasRequired(form) && seller.Threw? ==> r.state == Failed(seller.thrown) && |r.calls| == 1
    ensures HasRequired(form) && seller.Returned? ==>
              && |r.calls| >= 2
              && r.calls[1] == CreatePost(PostRequest(seller.value, form.instagramUrl.value, form.title.value,
                                                      PriceOf(form.price), OrNull(form.deadline), Open))
    ensures HasRequired(form) && seller.Returned? && created.Some? ==> r.state == Failed(created.value) && |r.calls| == 2
    ensures HasRequired(form) && seller.Returned? && created.None? ==>
              && r.calls == r.calls[..2] + [Revalidate(RevalidatedPath)]
              && r.state == (if revalidated.Some? then Failed(revalidated.value) else FormState(true, Registered))
  {
    if !HasRequired(form) then Submission(FormState(false, RequiredMissing), [])
    else
      var sellerCall := FindOrCreateSeller(SellerRequest(form.instagramUsername.value, OrNull(form.category)));
      match seller
      case Threw(t) => Submission(Failed(t), [sellerCall])
      case Returned(id) =>
        var post := CreatePost(PostRequest(id, form.instagramUrl.value, form.title.value,
                                           PriceOf(form.price), OrNull(form.deadline), Open));
        match created
        case Some(t) => Submission(Failed(t), [sellerCall, post])
        case None =>
          var state := if revalidated.Some? then Failed(revalidated.value) else FormState(true, Registered);
          Submission(state, [sellerCall, post, Revalidate(RevalidatedPath)])
  }

  /** Success happens exactly when the form is complete and no call throws; every failure message is the required-fields notice or carries
      the failure prefix; a created post is always open, belongs to the
      seller the first call returned and never stores an empty category,
      deadline or price text. */
  lemma SubmissionOutcomes(form: Form, seller: Reply<string>, created: Option<Thrown>, revalidated: Option<Thrown>)
    ensures var r := AddGonggu(form, seller, created, revalidated);
            && (r.state.success <==> HasRequired(form) && seller.Returned? && created.None? && revalidated.None?)
            && (!r.state.success ==> r.state.message == RequiredMissing || FailurePrefix <= r.state.message)
            && (forall i :: 0 <= i < |r.calls| && r.calls[i].CreatePost? ==>
                  && r.calls[i].post.status == Open
                  && seller.Returned? && r.calls[i].post.sellerId == seller.value
                  && (r.calls[i].post.deadline.Some? ==> r.calls[i].post.deadline.value != ""))
            && (forall i :: 0 <= i < |r.calls| && r.calls[i].FindOrCreateSeller? ==>
                  r.calls[i].seller.category != Some(""))
  {
  }

  /** An empty category, price and deadline are stored as null. */
  lemma EmptyOptionalsBecomeNull(username: string, url: string, title: string, id: string)
    requires username != "" && url != "" && title != ""
    ensures AddGonggu(Form(Some(username), Some(""), Some(url), Some(title), Some(""), Some("")), Returned(id), None, None).calls
            == [FindOrCreateSeller(SellerRequest(username, None)),
                CreatePost(PostRequest(id, url, title, NullPrice, None, Open)),
                Revalidate(RevalidatedPath)]
  {
  }

  /** The cache call runs inside the same `try` as the insert: when it
      throws, the post has already been sent to the repository, yet the form
      reports a registration failure. */
  lemma StoredButReportedFailed(form: Form, id: string, t: Thrown)
    requires HasRequired(form)
    ensures var r := AddGonggu(form, Returned(id), None, Some(t));
            && (exists i :: 0 <= i < |r.calls| && r.calls[i].CreatePost?)
            && !r.state.success && FailurePrefix <= r.state.message
  {
  }
}
