/** The agent loop of `index.js`: the wait between polls of the task
    server, the request filter installed on every page, and the handling of
    one task. The browser, the countdown and the endless loop itself are
    not modelled: one pass of the loop is one call of `Backoff.RunCycle`. */
module Agent {
  import opened Wrappers
  import opened Strings
  import Config
  import Utils
  import Crawler
  import Api

  // ================================================================ backoff

  const BaseDelay: nat := 3000
  const DelayIncrement: nat := 10000
  const MaxDelay: nat := 300000

  /** How one pass of the main loop ended: the server had no task, a task
      was processed (successfully or not), or something threw before the
      task was handed over (the task server could not be reached, say). */
  datatype Cycle = EmptyQueue | Processed(success: bool) | Crashed

  /** `Math.min(d + DELAY_INCREMENT, MAX_DELAY)`. */
  function Escalate(d: nat): (r: nat)
    ensures r <= MaxDelay
    ensures d <= MaxDelay ==> d <= r
    ensures r == MaxDelay || r == d + DelayIncrement
  {
    if d + DelayIncrement < MaxDelay then d + DelayIncrement else MaxDelay
  }

  /** The delay after one pass. A task resets the delay to the base before
      it is processed, so a failed task escalates from the base. */
  function NextDelay(d: nat, c: Cycle): (r: nat)
    ensures BaseDelay <= d <= MaxDelay ==> BaseDelay <= r <= MaxDelay
  {
    match c
    case EmptyQueue => Escalate(d)
    case Processed(success) => if success then BaseDelay else Escalate(BaseDelay)
    case Crashed => Escalate(d)
  }

  /** `Math.floor(currentDelay / 1000)`: the countdown length in seconds. */
  function WaitSeconds(d: nat): nat
  {
    d / 1000
  }

  /** The module-level `currentDelay` of the agent. */
  class Backoff {
    var currentDelay: nat

    ghost predicate Valid()
      reads this
    {
      BaseDelay <= currentDelay <= MaxDelay
    }

    constructor ()
      ensures Valid() && currentDelay == BaseDelay
    {
      currentDelay := BaseDelay;
    }

    /** One pass of the main loop: the delay updates the pass makes, in the
        order it makes them, and the countdown that ends it. */
    method RunCycle(c: Cycle) returns (waitSeconds: nat)
      requires Valid()
      modifies this
      ensures Valid()
      ensures currentDelay == NextDelay(old(currentDelay), c)
      ensures waitSeconds == WaitSeconds(currentDelay)
    {
      match c {
        case EmptyQueue =>
          currentDelay := Escalate(currentDelay);
        case Processed(success) =>
          currentDelay := BaseDelay;
          if success {
            currentDelay := BaseDelay;
          } else {
            currentDelay := Escalate(currentDelay);
          }
        case Crashed =>
          currentDelay := Escalate(currentDelay);
      }
      waitSeconds := currentDelay / 1000;
    }
  }

  /** The delay after the passes `cs`, in order. */
  function DelayAfter(d: nat, cs: seq<Cycle>): nat
    decreases |cs|
  {
    if |cs| == 0 then d else DelayAfter(NextDelay(d, cs[0]), cs[1..])
  }

  /** Whatever happens, the delay stays between the base and the cap. */
  lemma {:induction false} DelayBounded(d: nat, cs: seq<Cycle>)
    requires BaseDelay <= d <= MaxDelay
    ensures BaseDelay <= DelayAfter(d, cs) <= MaxDelay
    decreases |cs|
  {
    if |cs| > 0 {
      DelayBounded(NextDelay(d, cs[0]), cs[1..]);
    }
  }

  function EmptyPolls(k: nat): (cs: seq<Cycle>)
    ensures |cs| == k && forall i :: 0 <= i < k ==> cs[i] == EmptyQueue
  {
    seq(k, _ => EmptyQueue)
  }

  /** `k` empty polls in a row add `k` increments to the delay, up to the
      cap. */
  lemma {:induction false} EmptyPollsGrow(d: nat, k: nat)
    requires d <= MaxDelay
    ensures DelayAfter(d, EmptyPolls(k)) ==
      if d + k * DelayIncrement < MaxDelay then d + k * DelayIncrement else MaxDelay
    decreases k
  {
    if k > 0 {
      assert EmptyPolls(k)[1..] == EmptyPolls(k - 1);
      EmptyPollsGrow(Escalate(d), k - 1);
    }
  }

  /** From the base, empty polls wait 13, 23, 33, ... seconds, and from the
      30th on the wait stays at the 300-second cap. */
  lemma EmptyPollWaits(k: nat)
    requires k >= 1
    ensures k < 30 ==> WaitSeconds(DelayAfter(BaseDelay, EmptyPolls(k))) == 3 + 10 * k
    ensures k >= 30 ==> WaitSeconds(DelayAfter(BaseDelay, EmptyPolls(k))) == 300
  {
    EmptyPollsGrow(BaseDelay, k);
  }

  /** At the cap, further escalations keep the delay at the cap. */
  lemma {:induction false} CapHolds(cs: seq<Cycle>)
    requires forall i :: 0 <= i < |cs| ==> !cs[i].Processed?
    ensures DelayAfter(MaxDelay, cs) == MaxDelay
    decreases |cs|
  {
    if |cs| > 0 {
      CapHolds(cs[1..]);
    }
  }

  /** A processed task leaves the delay at the base when it succeeds and at
      exactly 13 seconds when it fails, whatever the delay was before:
      taking the task reset the delay first. */
  lemma ProcessedTaskDelay(d: nat)
    ensures NextDelay(d, Processed(true)) == BaseDelay
    ensures NextDelay(d, Processed(false)) == 13000
    ensures WaitSeconds(NextDelay(d, Processed(false))) == 13
    ensures WaitSeconds(NextDelay(d, Processed(true))) == 3
  {
  }

  // ======================================================== request filter

  /** One intercepted request: the hostname and pathname `new URL` gives
      (`None` when the URL does not parse) and Playwright's resource
      type. */
  datatype Request = Request(hostname: Option<string>, pathname: Option<string>, resourceType: string)

  /** Which check blocked a request. */
  datatype BlockedBy = BlockedDomain | BlockedType | BlockedExtension

  /** What the route handler does: answer with a status-200 stub of the
      given content type, or let the request through. */
  datatype RouteAction = Fulfill(contentType: string, blocker: BlockedBy) | Continue

  /** `getContentType`. */
  function GetContentType(resourceType: string): (r: string)
    ensures resourceType == "image" ==> r == "image/png"
    ensures resourceType == "stylesheet" ==> r == "text/css"
    ensures resourceType == "script" ==> r == "application/javascript"
    ensures resourceType == "font" ==> r == "font/woff2"
    ensures resourceType !in {"image", "stylesheet", "script", "font"} ==> r == "text/plain"
  {
    if resourceType == "image" then "image/png"
    else if resourceType == "stylesheet" then "text/css"
    else if resourceType == "script" then "application/javascript"
    else if resourceType == "font" then "font/woff2"
    else "text/plain"
  }

  /** The route handler of `setupResourceFiltering`: blocked domain first,
      then blocked resource type, then blocked extension. */
  function FilterRequest(req: Request): (r: RouteAction)
    ensures r.Fulfill? ==> r.contentType == GetContentType(req.resourceType)
    ensures r.Continue? <==>
      !Utils.MatchesDomain(req.hostname, Config.BlockedDomains)
      && req.resourceType !in Config.BlockedResourceTypes
      && !Utils.HasBlockedExtension(req.pathname, Config.BlockedExtensions)
  {
    var ct := GetContentType(req.resourceType);
    if Utils.MatchesDomain(req.hostname, Config.BlockedDomains) then Fulfill(ct, BlockedDomain)
    else if req.resourceType in Config.BlockedResourceTypes then Fulfill(ct, BlockedType)
    else if Utils.HasBlockedExtension(req.pathname, Config.BlockedExtensions) then Fulfill(ct, BlockedExtension)
    else Continue
  }

  /** With filtering disabled no route is installed and every request goes
      through; with it enabled the handler decides. */
  function Route(enabled: bool, req: Request): (r: RouteAction)
    ensures !enabled ==> r == Continue
  {
    if enabled then FilterRequest(req) else Continue
  }

  /** The checks are ordered: a blocked domain wins over the other two, and
      a blocked type over a blocked extension. */
  lemma FilterOrder(req: Request)
    ensures Utils.MatchesDomain(req.hostname, Config.BlockedDomains) ==>
      FilterRequest(req).Fulfill? && FilterRequest(req).blocker == BlockedDomain
    ensures (!Utils.MatchesDomain(req.hostname, Config.BlockedDomains)
             && req.resourceType in Config.BlockedResourceTypes) ==>
      FilterRequest(req).Fulfill? && FilterRequest(req).blocker == BlockedType
    ensures FilterRequest(req).Fulfill? && FilterRequest(req).blocker == BlockedExtension ==>
      Utils.HasBlockedExtension(req.pathname, Config.BlockedExtensions)
      && req.resourceType !in Config.BlockedResourceTypes
  {
  }

  /** Fonts never reach the network: every font request gets the
      `font/woff2` stub, whatever its URL. */
  lemma FontsStubbed(req: Request)
    requires req.resourceType == "font"
    ensures Route(Config.FilteringEnabled, req).Fulfill?
    ensures Route(Config.FilteringEnabled, req).contentType == "font/woff2"
  {
    assert Config.BlockedResourceTypes[1] == "font";
  }

  /** A script from an image server is stubbed as a blocked domain, with
      the script content type. */
  lemma ImageServerScriptStubbed(mid: string, pathname: Option<string>)
    ensures var req := Request(Some("image" + mid + ".coupangcdn.com"), pathname, "script");
      FilterRequest(req) == Fulfill("application/javascript", BlockedDomain)
  {
    var h := "image" + mid + ".coupangcdn.com";
    Utils.ImageHostBlocked(Config.BlockedDomains[0], mid);
    Utils.MatchesDomainMeaning(Some(h), Config.BlockedDomains);
  }

  // ============================================================ one task

  /** The result object `processKeyword` hands to `sendResult`: the task id
      and the fields of the search record. */
  function ResultDataOf(id: Value, rec: Crawler.ProductRecord): (r: Api.ResultData)
    ensures r.error.None? && r.id == id && r.rank == Api.RankOf(rec.rank)
  {
    Api.ResultData(
      None, id, Api.RankOf(rec.rank),
      rec.productName, rec.thumbnailUrl, rec.rating, rec.reviewCount,
      rec.beforePrice, rec.salePrice, rec.discountPercent,
      rec.unitLabel, rec.unitPrice,
      Some(rec.freeShip), Some(rec.freeReturn), Some(rec.coupangPick),
      rec.discountTypes, rec.pointBenefit, rec.deliveryInfo, rec.deliveryKeys,
      rec.isSoldout, rec.soldoutText, rec.productUrl)
  }

  /** What `processKeyword` returns: `success: true` with the search
      record, or `success: false` with the error message. */
  datatype TaskOutcome = TaskDone(record: Crawler.ProductRecord) | TaskFailed(message: string)

  /** `processKeyword`: search, then report the result; any error of the
      search is caught and turned into a failed outcome, and nothing is
      sent. The task succeeds whatever the server makes of the report. */
  method ProcessKeyword(task: Api.KeywordData, s: Crawler.Session, reply: Api.PostReply)
    returns (outcome: TaskOutcome, posted: Option<Api.Payload>)
    ensures var found := Crawler.Search(s, ValueText(task.productCode));
      (found.Failure? ==> outcome == TaskFailed(found.error) && posted.None?)
      && (found.Success? ==>
            outcome == TaskDone(found.value) && posted == Api.PostedBody(ResultDataOf(task.id, found.value)))
  {
    var result := Crawler.SearchCoupang(s, ValueText(task.productCode));
    if result.Failure? {
      return TaskFailed(result.error), None;
    }
    var resultData := ResultDataOf(task.id, result.value);
    var report;
    report, posted := Api.SendResult(Some(resultData), reply);
    outcome := TaskDone(result.value);
  }

  /** A task whose product is not on the searched pages is reported with
      rank 0 and an empty `product_data`, as long as the task has an id. */
  lemma NotFoundReportedAsZero(id: Value)
    requires ValueTruthy(id)
    ensures Api.PostedBody(ResultDataOf(id, Crawler.EmptyRecord)) ==
      Some(Api.Payload(id, 0, Api.NoData))
  {
  }

  /** A found sold-out product is reported with its rank and without any
      of the three price fields, and with the sold-out flag set. */
  lemma SoldOutReportedWithoutPrices(id: Value, e: Crawler.Entry, rank: nat, text: string)
    requires ValueTruthy(id) && rank > 0 && e.soldout == Some(text)
    ensures var posted := Api.PostedBody(ResultDataOf(id, Crawler.RecordOf(e, rank)));
      posted.Some? && posted.value.rank == rank
      && posted.value.productData.beforePrice.None?
      && posted.value.productData.salePrice.None?
      && posted.value.productData.discountPercent.None?
      && posted.value.productData.soldout.Some?
  {
    Crawler.SoldOutSuppressesPrices(e, rank, text);
  }

  /** A task the search failed on moves the backoff as a failed task; one
      it succeeded on, found or not, as a success. */
  function CycleOf(outcome: TaskOutcome): (c: Cycle)
    ensures c.Processed? && (c.success <==> outcome.TaskDone?)
  {
    Processed(outcome.TaskDone?)
  }
}
