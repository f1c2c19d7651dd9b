/** The two calls of `api.js` to the task server, without the HTTP client:
    `getKeyword` takes the server's answer as input and maps it to a task,
    and `sendResult` gates a search result, builds the body it would post
    and takes the server's answer to that post as input. */
module Api {
  import opened Wrappers
  import opened Strings
  import Crawler

  // ============================================================ getKeyword

  /** The `data` object of an `/assign` answer. */
  datatype KeywordRow = KeywordRow(id: Value, keyword: Value, productCode: Value,
                                   productId: Value, itemId: Value, vendorItemId: Value)

  /** What the `/assign` request produced: an HTTP error status, no answer
      at all, or an answer body with its `success` flag and its `data`
      object (`None` when missing or `null`). */
  datatype AssignReply =
    | HttpError(status: int)
    | NoResponse
    | Body(success: bool, data: Option<KeywordRow>)

  /** The task `getKeyword` hands to the agent. */
  datatype KeywordData = KeywordData(id: Value, keyword: Value, productCode: Value,
                                     itemId: Value, vendorItemId: Value)

  /** Why `getKeyword` throws: the server's error status, no answer, or a
      body of the wrong shape. */
  datatype KeywordError = ServerStatus(status: int) | Unreachable | InvalidFormat

  const InvalidFormatMessage: string := "Invalid API response format"

  /** `getKeyword`: a task from a well-formed answer, `null` on HTTP 404,
      and the error rethrown otherwise. The product code falls back to the
      product id when it is missing or empty. */
  function GetKeyword(reply: AssignReply): (r: Result<Option<KeywordData>, KeywordError>)
    ensures r == Success(None) <==> reply == HttpError(404)
    ensures r.Success? && r.value.Some? <==> reply.Body? && reply.success && reply.data.Some?
    ensures r.Success? && r.value.Some? ==>
      var row := reply.data.value;
      r.value.value.id == row.id && r.value.value.keyword == row.keyword
      && r.value.value.itemId == row.itemId && r.value.value.vendorItemId == row.vendorItemId
      && (ValueTruthy(row.productCode) ==> r.value.value.productCode == row.productCode)
      && (!ValueTruthy(row.productCode) ==> r.value.value.productCode == row.productId)
    ensures reply.Body? && !(reply.success && reply.data.Some?) ==> r == Failure(InvalidFormat)
  {
    match reply
    case HttpError(status) => if status == 404 then Success(None) else Failure(ServerStatus(status))
    case NoResponse => Failure(Unreachable)
    case Body(success, data) =>
      if success && data.Some? then
        var row := data.value;
        Success(Some(KeywordData(row.id, row.keyword, ValueOr(row.productCode, row.productId),
                                 row.itemId, row.vendorItemId)))
      else Failure(InvalidFormat)
  }

  /** A numeric product code of 0 is falsy, so the product id is used. */
  lemma ZeroCodeFallsBack(row: KeywordRow)
    requires row.productCode == Number(0)
    ensures GetKeyword(Body(true, Some(row)))
      == Success(Some(KeywordData(row.id, row.keyword, row.productId, row.itemId, row.vendorItemId)))
  {
  }

  // ============================================================ sendResult

  /** `result.rank`: missing, `null`, or a number. */
  datatype RankField = NoRank | NullRank | RankOf(n: int)

  /** The result object `sendResult` reads. Nullable fields are `None` for
      both `null` and a missing field; the two lists are empty when
      missing. */
  datatype ResultData = ResultData(
    error: Option<string>,
    id: Value,
    rank: RankField,
    productName: Option<string>,
    thumbnailUrl: Option<string>,
    rating: Option<string>,
    reviewCount: Option<nat>,
    beforePrice: Option<Crawler.Num>,
    salePrice: Option<Crawler.Num>,
    discountPercent: Option<Crawler.Num>,
    unitLabel: Option<string>,
    unitPrice: Option<nat>,
    freeShip: Option<bool>,
    freeReturn: Option<bool>,
    coupangPick: Option<bool>,
    discountTypes: seq<string>,
    pointBenefit: Option<string>,
    deliveryInfo: Option<string>,
    deliveryKeys: seq<string>,
    isSoldout: bool,
    soldoutText: Option<string>,
    productUrl: Option<string>)

  /** `product_data`: one field per key `sendResult` may write, `None` when
      the key is absent. The sold-out pair is one field, since `is_soldout`
      (always `true`) and `soldout_text` (`null` when there is no text) are
      written together. */
  datatype ProductData = ProductData(
    productName: Option<string>,
    thumbnailUrl: Option<string>,
    rating: Option<string>,
    reviewCount: Option<nat>,
    beforePrice: Option<Crawler.Num>,
    salePrice: Option<Crawler.Num>,
    discountPercent: Option<Crawler.Num>,
    unitLabel: Option<string>,
    unitPrice: Option<nat>,
    freeShip: Option<bool>,
    freeReturn: Option<bool>,
    deliveryInfo: Option<string>,
    coupangPick: Option<bool>,
    discountTypes: Option<seq<string>>,
    pointBenefit: Option<string>,
    deliveryKeys: Option<string>,
    soldout: Option<Option<string>>,
    productUrl: Option<string>)

  /** `{}`. */
  const NoData: ProductData := ProductData(
    None, None, None, None, None, None, None, None, None,
    None, None, None, None, None, None, None, None, None)

  /** The body posted to `/result`. */
  datatype Payload = Payload(id: Value, rank: int, productData: ProductData)

  /** What the server answered to the post: nothing (the request failed),
      or a body with its `success` flag. */
  datatype PostReply = PostFailed | Answered(success: bool, body: string)

  /** What `sendResult` returns: the server's body, or `success: false`
      with a reason. */
  datatype SendReport = Accepted(body: string) | Declined(reason: string)

  const ErrorSkip: string := "ERROR_SKIP"
  const InvalidData: string := "INVALID_DATA"
  const ExceptionReason: string := "EXCEPTION"

  /** The reason a result is not sent, checked in the source's order: a
      recorded error first, then a missing id or rank. */
  function Gate(r: ResultData): (reason: Option<string>)
    ensures Truthy(r.error) ==> reason == Some(ErrorSkip)
    ensures reason.None? <==> !Truthy(r.error) && ValueTruthy(r.id) && !r.rank.NoRank?
    ensures reason.Some? ==> reason.value == ErrorSkip || reason.value == InvalidData
  {
    if Truthy(r.error) then Some(ErrorSkip)
    else if !ValueTruthy(r.id) || r.rank.NoRank? then Some(InvalidData)
    else None
  }

  /** A numeric id of 0 and an empty id are both falsy: such a result is
      invalid, whatever its rank. */
  lemma ZeroIdIsInvalid(r: ResultData)
    requires !Truthy(r.error) && (r.id == Number(0) || r.id == Str(""))
    ensures Gate(r) == Some(InvalidData)
  {
  }

  /** `result.rank || 0`. */
  function PostedRank(rank: RankField): (n: int)
    ensures rank.RankOf? ==> n == rank.n
    ensures !rank.RankOf? ==> n == 0
  {
    if rank.RankOf? && rank.n != 0 then rank.n else 0
  }

  /** `result.rank > 0`. */
  predicate Found(r: ResultData)
  {
    r.rank.RankOf? && r.rank.n > 0
  }

  /** A string field as `if (x)` lets it through: `null` and `""` are
      dropped. */
  function NonEmpty(s: Option<string>): (r: Option<string>)
    ensures r.Some? <==> Truthy(s)
    ensures r.Some? ==> r == s
  {
    if Truthy(s) then s else None
  }

  /** A list field as `if (x && x.length > 0)` lets it through. */
  function NonEmptyList(xs: seq<string>): (r: Option<seq<string>>)
    ensures r.Some? <==> |xs| > 0
    ensures r.Some? ==> r.value == xs
  {
    if |xs| > 0 then Some(xs) else None
  }

  /** The body `sendResult` posts for a result, if any: one that passes
      the gate is posted with rank `rank || 0`. */
  function PostedBody(r: ResultData): (p: Option<Payload>)
    ensures p.Some? <==> Gate(r).None?
  {
    if Gate(r).None? then Some(Payload(r.id, PostedRank(r.rank), Serialize(r))) else None
  }

  /** `sendResult`: the gates, then `product_data` filled in by one
      conditional assignment per field when the rank is positive, then the
      post. The body is returned together with the report; a `null` result
      throws on its first field read and is reported as an exception. */
  method SendResult(result: Option<ResultData>, reply: PostReply)
    returns (report: SendReport, posted: Option<Payload>)
    ensures result.None? ==> report == Declined(ExceptionReason) && posted.None?
    ensures result.Some? && Gate(result.value).Some? ==>
      report == Declined(Gate(result.value).value) && posted.None?
    ensures result.Some? && Gate(result.value).None? ==>
      posted == Some(Payload(result.value.id, PostedRank(result.value.rank), Serialize(result.value)))
      && (report.Accepted? <==> reply.Answered? && reply.success)
      && (report.Accepted? ==> report.body == reply.body)
      && (report.Declined? ==> report.reason == ExceptionReason)
  {
    if result.None? {
      return Declined(ExceptionReason), None;
    }
    var r := result.value;
    if Truthy(r.error) {
      return Declined(ErrorSkip), None;
    }
    if !ValueTruthy(r.id) || r.rank.NoRank? {
      return Declined(InvalidData), None;
    }
    var data := NoData;
    if Found(r) {
      data := BasicFields(r, data);
      data := PriceFields(r, data);
      data := ShippingFields(r, data);
      data := ExtraFields(r, data);
    }
    posted := Some(Payload(r.id, PostedRank(r.rank), data));
    if reply.Answered? && reply.success {
      report := Accepted(reply.body);
    } else {
      report := Declined(ExceptionReason);
    }
  }

  /** The `product_data` of a result that passed the gate: empty unless the
      rank is positive; then nullable fields when not `null`, strings when
      non-empty, lists when not empty, the delivery keys joined with commas,
      and the sold-out pair when the entry is sold out. */
  function Serialize(r: ResultData): ProductData
  {
    if !Found(r) then NoData
    else ProductData(
      NonEmpty(r.productName), NonEmpty(r.thumbnailUrl), r.rating, r.reviewCount,
      r.beforePrice, r.salePrice, r.discountPercent,
      NonEmpty(r.unitLabel), r.unitPrice,
      r.freeShip, r.freeReturn, NonEmpty(r.deliveryInfo),
      r.coupangPick, NonEmptyList(r.discountTypes), NonEmpty(r.pointBenefit),
      if |r.deliveryKeys| > 0 then Some(Join(r.deliveryKeys, ',')) else None,
      if r.isSoldout then Some(r.soldoutText) else None,
      NonEmpty(r.productUrl))
  }

  /** The basic product fields: name, thumbnail, rating, review count. */
  method BasicFields(r: ResultData, data: ProductData) returns (d: ProductData)
    requires data.productName.None? && data.thumbnailUrl.None?
    requires data.rating.None? && data.reviewCount.None?
    ensures d == data.(productName := NonEmpty(r.productName), thumbnailUrl := NonEmpty(r.thumbnailUrl),
                       rating := r.rating, reviewCount := r.reviewCount)
  {
    d := data;
    if Truthy(r.productName) { d := d.(productName := r.productName); }
    if Truthy(r.thumbnailUrl) { d := d.(thumbnailUrl := r.thumbnailUrl); }
    if r.rating.Some? { d := d.(rating := r.rating); }
    if r.reviewCount.Some? { d := d.(reviewCount := r.reviewCount); }
  }

  /** The price and unit-price fields. */
  method PriceFields(r: ResultData, data: ProductData) returns (d: ProductData)
    requires data.beforePrice.None? && data.salePrice.None? && data.discountPercent.None?
    requires data.unitLabel.None? && data.unitPrice.None?
    ensures d == data.(beforePrice := r.beforePrice, salePrice := r.salePrice,
                       discountPercent := r.discountPercent, unitLabel := NonEmpty(r.unitLabel),
                       unitPrice := r.unitPrice)
  {
    d := data;
    if r.beforePrice.Some? { d := d.(beforePrice := r.beforePrice); }
    if r.salePrice.Some? { d := d.(salePrice := r.salePrice); }
    if r.discountPercent.Some? { d := d.(discountPercent := r.discountPercent); }
    if Truthy(r.unitLabel) { d := d.(unitLabel := r.unitLabel); }
    if r.unitPrice.Some? { d := d.(unitPrice := r.unitPrice); }
  }

  /** The shipping fields. */
  method ShippingFields(r: ResultData, data: ProductData) returns (d: ProductData)
    requires data.freeShip.None? && data.freeReturn.None? && data.deliveryInfo.None?
    ensures d == data.(freeShip := r.freeShip, freeReturn := r.freeReturn,
                       deliveryInfo := NonEmpty(r.deliveryInfo))
  {
    d := data;
    if r.freeShip.Some? { d := d.(freeShip := r.freeShip); }
    if r.freeReturn.Some? { d := d.(freeReturn := r.freeReturn); }
    if Truthy(r.deliveryInfo) { d := d.(deliveryInfo := r.deliveryInfo); }
  }

  /** The badge, discount, benefit, delivery-key, sold-out and link fields. */
  method ExtraFields(r: ResultData, data: ProductData) returns (d: ProductData)
    requires data.coupangPick.None? && data.discountTypes.None? && data.pointBenefit.None?
    requires data.deliveryKeys.None? && data.soldout.None? && data.productUrl.None?
    ensures d == data.(coupangPick := r.coupangPick, discountTypes := NonEmptyList(r.discountTypes),
                       pointBenefit := NonEmpty(r.pointBenefit),
                       deliveryKeys := if |r.deliveryKeys| > 0 then Some(Join(r.deliveryKeys, ',')) else None,
                       soldout := if r.isSoldout then Some(r.soldoutText) else None,
                       productUrl := NonEmpty(r.productUrl))
  {
    d := data;
    if r.coupangPick.Some? { d := d.(coupangPick := r.coupangPick); }
    if |r.discountTypes| > 0 { d := d.(discountTypes := Some(r.discountTypes)); }
    if Truthy(r.pointBenefit) { d := d.(pointBenefit := r.pointBenefit); }
    if |r.deliveryKeys| > 0 { d := d.(deliveryKeys := Some(Join(r.deliveryKeys, ','))); }
    if r.isSoldout { d := d.(soldout := Some(r.soldoutText)); }
    if Truthy(r.productUrl) { d := d.(productUrl := r.productUrl); }
  }

  // ============================================================ read back

  /** How the receiver reads a posted body back into a result: absent keys
      become `null`, lists come back empty, the delivery keys are split on
      commas and the sold-out flag is set exactly when the pair is there. */
  function Restore(p: Payload): ResultData
  {
    var d := p.productData;
    ResultData(
      None, p.id, RankOf(p.rank),
      d.productName, d.thumbnailUrl, d.rating, d.reviewCount,
      d.beforePrice, d.salePrice, d.discountPercent,
      d.unitLabel, d.unitPrice,
      d.freeShip, d.freeReturn, d.coupangPick,
      if d.discountTypes.Some? then d.discountTypes.value else [],
      d.pointBenefit, d.deliveryInfo,
      if d.deliveryKeys.Some? then Split(d.deliveryKeys.value, ',') else [],
      d.soldout.Some?,
      if d.soldout.Some? then d.soldout.value else None,
      d.productUrl)
  }

  /** What of a found result reaches the receiver: everything except the
      error field, empty strings (which arrive as missing) and the sold-out
      text of an entry that is not sold out. */
  function Visible(r: ResultData): ResultData
  {
    r.(error := None,
       productName := NonEmpty(r.productName), thumbnailUrl := NonEmpty(r.thumbnailUrl),
       unitLabel := NonEmpty(r.unitLabel), deliveryInfo := NonEmpty(r.deliveryInfo),
       pointBenefit := NonEmpty(r.pointBenefit), productUrl := NonEmpty(r.productUrl),
       soldoutText := if r.isSoldout then r.soldoutText else None)
  }

  /** The posted body of a found result reads back as the result itself,
      up to what cannot survive the trip (see `Visible`), provided no
      delivery key holds a comma. */
  lemma RestoreSerialize(r: ResultData)
    requires Found(r)
    requires forall k :: 0 <= k < |r.deliveryKeys| ==> ',' !in r.deliveryKeys[k]
    ensures Restore(Payload(r.id, PostedRank(r.rank), Serialize(r))) == Visible(r)
  {
    if |r.deliveryKeys| > 0 {
      SplitJoin(r.deliveryKeys, ',');
    }
  }

  /** A result whose rank is not positive (not found, or `null`) posts an
      empty `product_data`, whatever fields it carries. */
  lemma NotFoundPostsNoData(r: ResultData)
    requires !Found(r)
    ensures Serialize(r) == NoData
    ensures Restore(Payload(r.id, PostedRank(r.rank), Serialize(r))).productName.None?
  {
  }

  /** Every string the body carries is non-empty. */
  lemma NoEmptyStrings(r: ResultData)
    ensures var d := Serialize(r);
      Truthy(d.productName) == d.productName.Some?
      && Truthy(d.thumbnailUrl) == d.thumbnailUrl.Some?
      && Truthy(d.unitLabel) == d.unitLabel.Some?
      && Truthy(d.deliveryInfo) == d.deliveryInfo.Some?
      && Truthy(d.pointBenefit) == d.pointBenefit.Some?
      && Truthy(d.productUrl) == d.productUrl.Some?
  {
  }
}
