/** The two delivery handlers of the current service.  `GET /dex/deliver/{id}`
    returns the content with at most one client action chosen by its kind;
    `GET /dex/{id}` redirects to the content's URL or returns a small
    payload. */
module Delivery {
  import opened Common
  import opened Records
  import opened Matching

  // ---------------------------------------------------------------------
  // Lookups
  // ---------------------------------------------------------------------

  /** The first record with id `dexId`, active or not. */
  function FindById(contents: seq<DexContent>, dexId: int): (r: Option<DexContent>)
    ensures r.Some? ==> r.value in contents && r.value.id == dexId
    ensures r.None? <==> forall c :: c in contents ==> c.id != dexId
  {
    if contents == [] then None
    else if contents[0].id == dexId then Some(contents[0])
    else FindById(contents[1..], dexId)
  }

  /** The first record with id `dexId` that is active. */
  function FindActiveById(contents: seq<DexContent>, dexId: int): (r: Option<DexContent>)
    ensures r.Some? ==> r.value in contents && r.value.id == dexId && r.value.isActive
    ensures r.None? <==> forall c :: c in contents ==> !(c.id == dexId && c.isActive)
  {
    if contents == [] then None
    else if contents[0].id == dexId && contents[0].isActive then Some(contents[0])
    else FindActiveById(contents[1..], dexId)
  }

  /** Content ids are a primary key. */
  predicate UniqueIds(contents: seq<DexContent>)
  {
    forall j, k :: 0 <= j < k < |contents| ==> contents[j].id != contents[k].id
  }

  // ---------------------------------------------------------------------
  // GET /dex/deliver/{id}
  // ---------------------------------------------------------------------

  /** A client directive of a delivery response. */
  datatype Action =
    | PlayVideo(url: Option<string>, autoplay: bool)
    | LaunchAr(arUrl: string, modelUrl: Option<string>)
    | OpenWebpage(url: Option<string>, target: string)
    | DownloadPdf(url: Option<string>, filename: string)

  /** The action that suits the content: video plays automatically, AR and
      3D models launch the AR viewer of that content, a webpage opens in a new
      tab, a PDF downloads under the content's title. */
  predicate Suits(a: Action, c: DexContent)
  {
    match a
    case PlayVideo(url, autoplay) => c.contentType == "video" && url == c.contentUrl && autoplay
    case LaunchAr(arUrl, modelUrl) =>
      IsArKind(c.contentType) && arUrl == Path(ArLink(c.id)) && modelUrl == c.contentUrl
    case OpenWebpage(url, target) => c.contentType == "webpage" && url == c.contentUrl && target == "_blank"
    case DownloadPdf(url, filename) => c.contentType == "pdf" && url == c.contentUrl && filename == c.title + ".pdf"
  }

  /** The kinds that carry an action; "link" and unrecognised kinds do not. */
  predicate HasAction(contentType: string)
  {
    contentType == "video" || IsArKind(contentType) || contentType == "webpage" || contentType == "pdf"
  }

  /** At most one action suits a content record. */
  lemma SuitingActionIsUnique(a: Action, b: Action, c: DexContent)
    requires Suits(a, c) && Suits(b, c)
    ensures a == b
  {
  }

  datatype Delivery = Delivery(
    id: int,
    title: string,
    description: string,
    contentType: string,
    contentUrl: Option<string>,
    contentData: Option<string>,
    deliveredAt: int,
    actions: seq<Action>)

  /** The guard chain of the handler: unknown id, then inactive content,
      each a 404. */
  function DeliveryCheck(contents: seq<DexContent>, dexId: int): (r: Result<DexContent>)
    ensures r.Ok? ==> r.value in contents && r.value.id == dexId && r.value.isActive
    ensures r.Err? ==> r.error.status == 404
    ensures (forall c :: c in contents ==> c.id != dexId) <==> r == Err(HttpError(404, "DEX content not found"))
  {
    match FindById(contents, dexId)
    case None => Err(HttpError(404, "DEX content not found"))
    case Some(c) => if !c.isActive then Err(HttpError(404, "DEX content is not active")) else Ok(c)
  }

  /** With unique ids the handler delivers exactly the active records. */
  lemma DeliveryCheckAcceptsActive(contents: seq<DexContent>, c: DexContent)
    requires UniqueIds(contents) && c in contents
    ensures DeliveryCheck(contents, c.id).Ok? <==> c.isActive
    ensures c.isActive ==> DeliveryCheck(contents, c.id) == Ok(c)
    ensures !c.isActive ==> DeliveryCheck(contents, c.id) == Err(HttpError(404, "DEX content is not active"))
  {
  }

  /** Builds the delivery response for content that passed the checks,
      appending the one action its kind calls for, if any. */
  method DeliverContent(c: DexContent, now: int) returns (d: Delivery)
    ensures d.id == c.id && d.title == c.title && d.description == c.description
    ensures d.contentType == c.contentType && d.contentUrl == c.contentUrl && d.contentData == c.contentData
    ensures d.deliveredAt == now
    ensures |d.actions| <= 1
    ensures |d.actions| == 1 <==> HasAction(c.contentType)
    ensures forall k :: 0 <= k < |d.actions| ==> Suits(d.actions[k], c)
  {
    var actions: seq<Action> := [];
    if c.contentType == "video" {
      actions := actions + [PlayVideo(c.contentUrl, true)];
    } else if c.contentType == "ar" || c.contentType == "3d_model" {
      actions := actions + [LaunchAr("/dex/ar/" + IntText(c.id), c.contentUrl)];
    } else if c.contentType == "webpage" {
      actions := actions + [OpenWebpage(c.contentUrl, "_blank")];
    } else if c.contentType == "pdf" {
      actions := actions + [DownloadPdf(c.contentUrl, c.title + ".pdf")];
    }
    d := Delivery(c.id, c.title, c.description, c.contentType, c.contentUrl, c.contentData, now, actions);
  }

  /** `GET /dex/deliver/{id}` with its 404s reported as 404s. */
  method Deliver(contents: seq<DexContent>, dexId: int, now: int) returns (r: Result<Delivery>)
    ensures r.Err? <==> DeliveryCheck(contents, dexId).Err?
    ensures r.Err? ==> r.error == DeliveryCheck(contents, dexId).error
    ensures r.Ok? ==> && r.value.id == dexId
                      && r.value.deliveredAt == now
                      && (exists c :: && c in contents && c.id == dexId && c.isActive
                                      && r.value.title == c.title && r.value.description == c.description
                                      && r.value.contentType == c.contentType
                                      && r.value.contentUrl == c.contentUrl && r.value.contentData == c.contentData
                                      && (|r.value.actions| == 1 <==> HasAction(c.contentType))
                                      && forall k :: 0 <= k < |r.value.actions| ==> Suits(r.value.actions[k], c))
                      && |r.value.actions| <= 1
  {
    var check := DeliveryCheck(contents, dexId);
    if check.Err? {
      return Err(check.error);
    }
    var d := DeliverContent(check.value, now);
    r := Ok(d);
  }

  /** How the handler's blanket `except Exception` rewrites any error raised
      inside it, the 404s of the guard chain included: status 500, with the
      error's `str` (status, colon, detail) after a prefix. */
  function Rewrapped(e: HttpError): (w: HttpError)
    ensures w.status == 500
  {
    HttpError(500, "Error delivering DEX: " + IntText(e.status) + ": " + e.detail)
  }

  /** The guard chain as written: its 404s come back rewrapped. */
  function DeliveryCheckAsWritten(contents: seq<DexContent>, dexId: int): (r: Result<DexContent>)
    ensures r.Ok? <==> DeliveryCheck(contents, dexId).Ok?
    ensures r.Err? ==> r.error.status == 500
  {
    match DeliveryCheck(contents, dexId)
    case Ok(c) => Ok(c)
    case Err(e) => Err(Rewrapped(e))
  }

  /** `GET /dex/deliver/{id}` as written. */
  method DeliverAsWritten(contents: seq<DexContent>, dexId: int, now: int) returns (r: Result<Delivery>)
    ensures r.Err? <==> DeliveryCheckAsWritten(contents, dexId).Err?
    ensures r.Err? ==> r.error == DeliveryCheckAsWritten(contents, dexId).error
    ensures r.Ok? ==> && r.value.id == dexId
                      && r.value.deliveredAt == now
                      && (exists c :: && c in contents && c.id == dexId && c.isActive
                                      && r.value.title == c.title && r.value.description == c.description
                                      && r.value.contentType == c.contentType
                                      && r.value.contentUrl == c.contentUrl && r.value.contentData == c.contentData
                                      && (|r.value.actions| == 1 <==> HasAction(c.contentType))
                                      && forall k :: 0 <= k < |r.value.actions| ==> Suits(r.value.actions[k], c))
                      && |r.value.actions| <= 1
  {
    r := Deliver(contents, dexId, now);
    if r.Err? {
      r := Err(Rewrapped(r.error));
    }
  }

  /** An unknown id is answered as a server error, not as "not found". */
  lemma UnknownIdReportedAsServerError(dexId: int)
    ensures DeliveryCheck([], dexId) == Err(HttpError(404, "DEX content not found"))
    ensures DeliveryCheckAsWritten([], dexId).Err?
    ensures DeliveryCheckAsWritten([], dexId).error.status == 500
    ensures DeliveryCheckAsWritten([], dexId).error.detail
            == "Error delivering DEX: 404: DEX content not found"
  {
  }

  // ---------------------------------------------------------------------
  // GET /dex/{id}
  // ---------------------------------------------------------------------

  /** The kinds answered with a redirect to the content URL. */
  predicate IsRedirectKind(contentType: string)
  {
    contentType == "link" || contentType == "webpage" || contentType == "video"
  }

  datatype DexPage =
    | Redirect(url: Option<string>)
    | ArPayload(title: string, description: string, contentData: Option<string>, contentUrl: Option<string>)
    | UnknownPayload(title: string, description: string, contentUrl: Option<string>)

  /** `GET /dex/{id}`: only active content is served; link, webpage and
      video redirect, "ar" (and not "3d_model") returns its data, anything
      else is labelled unknown. */
  function ServeDex(contents: seq<DexContent>, dexId: int): (r: Result<DexPage>)
    ensures r.Err? <==> forall c :: c in contents ==> !(c.id == dexId && c.isActive)
    ensures r.Err? ==> r.error == HttpError(404, "DEX content not found")
    ensures r.Ok? ==> exists c :: && c in contents && c.id == dexId && c.isActive
                                  && (r.value.Redirect? <==> IsRedirectKind(c.contentType))
                                  && (r.value.ArPayload? <==> c.contentType == "ar")
                                  && (r.value.Redirect? ==> r.value.url == c.contentUrl)
                                  && (!r.value.Redirect? ==> r.value.contentUrl == c.contentUrl)
                                  && (r.value.ArPayload? ==> && r.value.title == c.title
                                                             && r.value.description == c.description
                                                             && r.value.contentData == c.contentData)
                                  && (r.value.UnknownPayload? ==> && r.value.title == c.title
                                                                  && r.value.description == c.description)
  {
    match FindActiveById(contents, dexId)
    case None => Err(HttpError(404, "DEX content not found"))
    case Some(c) =>
      if IsRedirectKind(c.contentType) then Ok(Redirect(c.contentUrl))
      else if c.contentType == "ar" then Ok(ArPayload(c.title, c.description, c.contentData, c.contentUrl))
      else Ok(UnknownPayload(c.title, c.description, c.contentUrl))
  }

  /** With unique ids both handlers serve the same records. */
  lemma HandlersAgree(contents: seq<DexContent>, dexId: int)
    requires UniqueIds(contents)
    ensures ServeDex(contents, dexId).Ok? <==> DeliveryCheck(contents, dexId).Ok?
  {
  }
}
