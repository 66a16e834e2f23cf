/** The business API: a business manages the delivery content of the
    reference images it owns, at most one content record per image, and
    reads counts over its images and content. */
module BusinessApi {
  import opened Common
  import opened Records
  import opened Matching

  // ---------------------------------------------------------------------
  // Sequence helpers
  // ---------------------------------------------------------------------

  /** `s` without its element at `k`. */
  function RemoveAt<T>(s: seq<T>, k: nat): (r: seq<T>)
    requires k < |s|
    ensures |r| == |s| - 1
    ensures forall j :: 0 <= j < k ==> r[j] == s[j]
    ensures forall j :: k <= j < |r| ==> r[j] == s[j + 1]
  {
    s[..k] + s[k + 1..]
  }

  // ---------------------------------------------------------------------
  // Table invariant
  // ---------------------------------------------------------------------

  /** Image ids are a primary key. */
  predicate ImageIdsUnique(images: seq<ExtractedImage>)
  {
    forall j, k :: 0 <= j < k < |images| ==> images[j].id != images[k].id
  }

  /** Content ids are a primary key. */
  predicate ContentIdsUnique(contents: seq<DexContent>)
  {
    forall j, k :: 0 <= j < k < |contents| ==> contents[j].id != contents[k].id
  }

  /** No image carries two content records. */
  predicate OnePerImage(contents: seq<DexContent>)
  {
    forall j, k :: 0 <= j < k < |contents| ==> contents[j].imageId != contents[k].imageId
  }

  /** `image_id` is a foreign key: every content record belongs to an image
      in the table. */
  predicate ContentsHaveImages(images: seq<ExtractedImage>, contents: seq<DexContent>)
  {
    forall c :: c in contents ==> exists x :: x in images && x.id == c.imageId
  }

  /** The invariant of the two tables: both keys unique, at most one
      content per image, no content without its image, and every issued
      content id below the next one. */
  predicate TableInvariant(images: seq<ExtractedImage>, contents: seq<DexContent>, nextContentId: int)
  {
    && ImageIdsUnique(images)
    && ContentIdsUnique(contents)
    && OnePerImage(contents)
    && ContentsHaveImages(images, contents)
    && forall k :: 0 <= k < |contents| ==> contents[k].id < nextContentId
  }

  // ---------------------------------------------------------------------
  // Queries
  // ---------------------------------------------------------------------

  /** Image `imageId` belongs to `business` when its `business_name` is
      that business's name. */
  predicate OwnedBy(image: ExtractedImage, business: string)
  {
    image.businessName == Some(business)
  }

  /** The position of image `imageId` when `business` owns it. */
  function OwnedImageIndex(images: seq<ExtractedImage>, imageId: int, business: string): (r: Option<nat>)
    ensures r.Some? ==> r.value < |images| && images[r.value].id == imageId && OwnedBy(images[r.value], business)
    ensures r.None? <==> forall k :: 0 <= k < |images| ==> !(images[k].id == imageId && OwnedBy(images[k], business))
  {
    if images == [] then None
    else if images[0].id == imageId && OwnedBy(images[0], business) then Some(0)
    else match OwnedImageIndex(images[1..], imageId, business)
      case None => None
      case Some(k) => Some(k + 1)
  }

  /** The position of the first content record of image `imageId`, active
      or not. */
  function ContentIndexForImage(contents: seq<DexContent>, imageId: int): (r: Option<nat>)
    ensures r.Some? ==> && r.value < |contents| && contents[r.value].imageId == imageId
                        && forall j :: 0 <= j < r.value ==> contents[j].imageId != imageId
    ensures r.None? <==> forall k :: 0 <= k < |contents| ==> contents[k].imageId != imageId
  {
    if contents == [] then None
    else if contents[0].imageId == imageId then Some(0)
    else match ContentIndexForImage(contents[1..], imageId)
      case None => None
      case Some(k) => Some(k + 1)
  }

  /** The first content record of image `imageId`, active or not. */
  function FirstContentFor(contents: seq<DexContent>, imageId: int): (r: Option<DexContent>)
    ensures r.Some? ==> r.value in contents && r.value.imageId == imageId
    ensures r.None? <==> forall c :: c in contents ==> c.imageId != imageId
  {
    match ContentIndexForImage(contents, imageId)
    case None => None
    case Some(k) => Some(contents[k])
  }

  /** The guard shared by update, delete and toggle: the image must be owned
      (404) and must have content (404); the result is that content's
      position. */
  function FindOwnedContent(images: seq<ExtractedImage>, contents: seq<DexContent>,
                            imageId: int, business: string): (r: Result<nat>)
    ensures r.Ok? <==> OwnedImageIndex(images, imageId, business).Some? && ContentIndexForImage(contents, imageId).Some?
    ensures r.Ok? ==> r.value < |contents| && contents[r.value].imageId == imageId
    ensures OwnedImageIndex(images, imageId, business).None? ==>
              r == Err(HttpError(404, "Image not found or not owned by this business"))
    ensures OwnedImageIndex(images, imageId, business).Some? && ContentIndexForImage(contents, imageId).None? ==>
              r == Err(HttpError(404, "DEX content not found for this image"))
  {
    if OwnedImageIndex(images, imageId, business).None? then
      Err(HttpError(404, "Image not found or not owned by this business"))
    else match ContentIndexForImage(contents, imageId)
      case None => Err(HttpError(404, "DEX content not found for this image"))
      case Some(k) => Ok(k)
  }

  /** The images `business` owns, in table order. */
  function Owned(images: seq<ExtractedImage>, business: string): (r: seq<ExtractedImage>)
    ensures |r| <= |images|
    ensures forall x :: x in r <==> x in images && OwnedBy(x, business)
  {
    if images == [] then []
    else
      var last := images[|images| - 1];
      Owned(images[..|images| - 1], business) + (if OwnedBy(last, business) then [last] else [])
  }

  /** The content records joined to an image of `business`. */
  function JoinedContents(contents: seq<DexContent>, images: seq<ExtractedImage>, business: string): (r: seq<DexContent>)
    ensures |r| <= |contents|
    ensures forall c :: c in r <==> c in contents && OwnedImageIndex(images, c.imageId, business).Some?
  {
    if contents == [] then []
    else
      (if OwnedImageIndex(images, contents[0].imageId, business).Some? then [contents[0]] else [])
      + JoinedContents(contents[1..], images, business)
  }

  /** The active records of `contents`. */
  function ActiveOnly(contents: seq<DexContent>): (r: seq<DexContent>)
    ensures |r| <= |contents|
    ensures forall c :: c in r <==> c in contents && c.isActive
  {
    if contents == [] then []
    else (if contents[0].isActive then [contents[0]] else []) + ActiveOnly(contents[1..])
  }

  /** `contents` without the records of image `imageId`. */
  function WithoutImage(contents: seq<DexContent>, imageId: int): (r: seq<DexContent>)
    ensures |r| <= |contents|
    ensures forall c :: c in r <==> c in contents && c.imageId != imageId
  {
    if contents == [] then []
    else (if contents[0].imageId == imageId then [] else [contents[0]]) + WithoutImage(contents[1..], imageId)
  }

  /** `Owned` keeps every owned image as often as the table holds it, and
      nothing else. */
  lemma {:induction false} OwnedKeepsMultiplicity(images: seq<ExtractedImage>, business: string)
    ensures forall x :: multiset(Owned(images, business))[x]
                        == if OwnedBy(x, business) then multiset(images)[x] else 0
  {
    if images != [] {
      var front := images[..|images| - 1];
      OwnedKeepsMultiplicity(front, business);
      assert images == front + [images[|images| - 1]];
    }
  }

  /** `JoinedContents` keeps every record joined to an owned image as often
      as the table holds it, and nothing else. */
  lemma {:induction false} JoinedContentsKeepsMultiplicity(contents: seq<DexContent>, images: seq<ExtractedImage>,
                                                          business: string)
    ensures forall c :: multiset(JoinedContents(contents, images, business))[c]
                        == if OwnedImageIndex(images, c.imageId, business).Some? then multiset(contents)[c] else 0
  {
    if contents != [] {
      JoinedContentsKeepsMultiplicity(contents[1..], images, business);
      assert contents == [contents[0]] + contents[1..];
    }
  }

  /** `ActiveOnly` keeps every active record as often as the table holds
      it, and nothing else. */
  lemma {:induction false} ActiveOnlyKeepsMultiplicity(contents: seq<DexContent>)
    ensures forall c :: multiset(ActiveOnly(contents))[c] == if c.isActive then multiset(contents)[c] else 0
  {
    if contents != [] {
      ActiveOnlyKeepsMultiplicity(contents[1..]);
      assert contents == [contents[0]] + contents[1..];
    }
  }

  lemma {:induction false} WithoutImageKeepsKeys(contents: seq<DexContent>, imageId: int)
    requires ContentIdsUnique(contents) && OnePerImage(contents)
    ensures ContentIdsUnique(WithoutImage(contents, imageId))
    ensures OnePerImage(WithoutImage(contents, imageId))
  {
    if contents != [] {
      var rest := contents[1..];
      assert ContentIdsUnique(rest) && OnePerImage(rest) by {
        assert forall j :: 0 <= j < |rest| ==> rest[j] == contents[j + 1];
      }
      WithoutImageKeepsKeys(rest, imageId);
      var tail := WithoutImage(rest, imageId);
      forall x | x in tail
        ensures x.id != contents[0].id && x.imageId != contents[0].imageId
      {
        var j :| 0 <= j < |rest| && rest[j] == x;
        assert contents[j + 1] == x;
      }
    }
  }

  /** Deleting an image together with its content keeps every remaining
      record attached to a remaining image. */
  lemma CascadeKeepsImages(images: seq<ExtractedImage>, contents: seq<DexContent>, k: nat)
    requires k < |images| && ContentsHaveImages(images, contents)
    ensures ContentsHaveImages(RemoveAt(images, k), WithoutImage(contents, images[k].id))
  {
    var rest := RemoveAt(images, k);
    forall c | c in WithoutImage(contents, images[k].id)
      ensures exists x :: x in rest && x.id == c.imageId
    {
      var x :| x in images && x.id == c.imageId;
      var j :| 0 <= j < |images| && images[j] == x;
      if j < k {
        assert rest[j] == x;
      } else {
        assert j != k;
        assert rest[j - 1] == x;
      }
    }
  }

  /** One entry of the image listing: an image and its first content record. */
  datatype ImageListing = ImageListing(image: ExtractedImage, content: Option<DexContent>)

  datatype BusinessStats = BusinessStats(totalImages: nat, totalDexContent: nat, activeDexContent: nat, recentMatches: nat)

  /** The business reference derived from a name: lowercased, spaces
      replaced by underscores. */
  function BusinessReference(name: string): (r: string)
    ensures |r| == |name|
    ensures forall k :: 0 <= k < |r| ==> r[k] == ReferenceChar(name[k])
    ensures forall k :: 0 <= k < |r| ==> r[k] != ' ' && !('A' <= r[k] <= 'Z')
    ensures forall k :: 0 <= k < |r| ==> (name[k] == ' ' ==> r[k] == '_')
    ensures forall k :: 0 <= k < |r| ==> (name[k] != ' ' && !('A' <= name[k] <= 'Z') ==> r[k] == name[k])
    ensures forall k :: 0 <= k < |r| ==> ('A' <= name[k] <= 'Z' ==> r[k] == (name[k] as int - 'A' as int + 'a' as int) as char)
  {
    if name == [] then []
    else [ReferenceChar(name[0])] + BusinessReference(name[1..])
  }

  function ReferenceChar(c: char): (d: char)
    ensures d != ' ' && !('A' <= d <= 'Z')
    ensures c == ' ' ==> d == '_'
    ensures 'A' <= c <= 'Z' ==> 'a' <= d <= 'z' && d as int - 'a' as int == c as int - 'A' as int
    ensures c != ' ' && !('A' <= c <= 'Z') ==> d == c
  {
    if c == ' ' then '_'
    else if 'A' <= c <= 'Z' then (c as int - 'A' as int + 'a' as int) as char
    else c
  }

  /** Deriving a reference from a reference changes nothing. */
  lemma BusinessReferenceIdempotent(name: string)
    ensures BusinessReference(BusinessReference(name)) == BusinessReference(name)
  {
  }

  /** The API key preview of the profile: its first eight characters and an
      ellipsis. */
  function KeyPreview(apiKey: string): (p: string)
    ensures |p| == Min(|apiKey|, 8) + 3
    ensures p[..|p| - 3] <= apiKey && p[|p| - 3..] == "..."
  {
    (if |apiKey| <= 8 then apiKey else apiKey[..8]) + "..."
  }

  function Min(x: int, y: int): int
  {
    if x <= y then x else y
  }

  // ---------------------------------------------------------------------
  // Requests and receipts
  // ---------------------------------------------------------------------

  /** The body of a create or update request (`DEXContentCreate`). */
  datatype ContentRequest = ContentRequest(
    title: string,
    description: string,
    contentType: string,
    contentUrl: Option<string>,
    contentData: Option<string>)

  datatype CreateReceipt = CreateReceipt(
    message: string,
    dexId: int,
    imageId: int,
    deliveryUrl: string,
    arUrl: Option<string>,
    qrCodeUrl: string)

  datatype ToggleReceipt = ToggleReceipt(message: string, isActive: bool)

  /** A record with the request's fields written over its own. */
  function Overwritten(c: DexContent, req: ContentRequest): (d: DexContent)
    ensures d.id == c.id && d.imageId == c.imageId && d.isActive == c.isActive && d.createdAt == c.createdAt
    ensures d.title == req.title && d.description == req.description && d.contentType == req.contentType
    ensures d.contentUrl == req.contentUrl && d.contentData == req.contentData
  {
    c.(title := req.title, description := req.description, contentType := req.contentType,
       contentUrl := req.contentUrl, contentData := req.contentData)
  }

  /** The images and content tables behind the business API. */
  class BusinessStore {
    var images: seq<ExtractedImage>
    var contents: seq<DexContent>
    var nextContentId: int

    ghost predicate Valid()
      reads this
    {
      TableInvariant(images, contents, nextContentId)
    }

    constructor(images: seq<ExtractedImage>)
      requires ImageIdsUnique(images)
      ensures Valid()
      ensures this.images == images && contents == [] && nextContentId == 1
    {
      this.images := images;
      contents := [];
      nextContentId := 1;
    }

    /** `POST /images/{image_id}/dex`. */
    method Create(business: string, imageId: int, req: ContentRequest, now: int) returns (r: Result<CreateReceipt>)
      requires Valid()
      modifies this
      ensures Valid()
      ensures images == old(images)
      ensures OwnedImageIndex(images, imageId, business).None? ==>
                r == Err(HttpError(404, "Image not found or not owned by this business"))
      ensures OwnedImageIndex(images, imageId, business).Some? && ContentIndexForImage(old(contents), imageId).Some? ==>
                r == Err(HttpError(400, "DEX content already exists for this image"))
      ensures r.Err? ==> contents == old(contents) && nextContentId == old(nextContentId)
      ensures r.Ok? <==> OwnedImageIndex(images, imageId, business).Some? && ContentIndexForImage(old(contents), imageId).None?
      ensures r.Ok? ==> && contents == old(contents) + [DexContent(old(nextContentId), imageId, req.title, req.description,
                                                                   req.contentType, req.contentUrl, req.contentData,
                                                                   true, now)]
                        && nextContentId == old(nextContentId) + 1
                        && r.value.dexId == old(nextContentId)
                        && r.value.imageId == imageId
                        && r.value.deliveryUrl == Path(DeliverLink(r.value.dexId))
                        && (r.value.arUrl.Some? <==> IsArKind(req.contentType))
                        && (r.value.arUrl.Some? ==> r.value.arUrl.value == Path(ArLink(r.value.dexId)))
                        && r.value.qrCodeUrl == Path(QrLink(r.value.dexId))
    {
      if OwnedImageIndex(images, imageId, business).None? {
        return Err(HttpError(404, "Image not found or not owned by this business"));
      }
      if ContentIndexForImage(contents, imageId).Some? {
        return Err(HttpError(400, "DEX content already exists for this image"));
      }
      var id := nextContentId;
      var record := DexContent(id, imageId, req.title, req.description, req.contentType,
                               req.contentUrl, req.contentData, true, now);
      contents := contents + [record];
      nextContentId := nextContentId + 1;
      var arUrl := if req.contentType == "ar" || req.contentType == "3d_model" then Some(Path(ArLink(id))) else None;
      r := Ok(CreateReceipt("DEX content created successfully", id, imageId,
                            Path(DeliverLink(id)), arUrl, Path(QrLink(id))));
    }

    /** `PUT /images/{image_id}/dex`: overwrites exactly the five request
        fields of the image's content. */
    method Update(business: string, imageId: int, req: ContentRequest) returns (r: Result<int>)
      requires Valid()
      modifies this
      ensures Valid()
      ensures images == old(images) && nextContentId == old(nextContentId)
      ensures r.Err? <==> FindOwnedContent(images, old(contents), imageId, business).Err?
      ensures r.Err? ==> r.error == FindOwnedContent(images, old(contents), imageId, business).error
                         && contents == old(contents)
      ensures r.Ok? ==> var k := FindOwnedContent(images, old(contents), imageId, business).value;
                        && contents == old(contents)[k := Overwritten(old(contents)[k], req)]
                        && r.value == old(contents)[k].id
    {
      var found := FindOwnedContent(images, contents, imageId, business);
      if found.Err? {
        return Err(found.error);
      }
      var k := found.value;
      var updated := Overwritten(contents[k], req);
      contents := contents[k := updated];
      r := Ok(updated.id);
    }

    /** `DELETE /images/{image_id}/dex`: removes that one record; the image
        stays. */
    method Delete(business: string, imageId: int) returns (r: Result<string>)
      requires Valid()
      modifies this
      ensures Valid()
      ensures images == old(images) && nextContentId == old(nextContentId)
      ensures r.Err? <==> FindOwnedContent(images, old(contents), imageId, business).Err?
      ensures r.Err? ==> r.error == FindOwnedContent(images, old(contents), imageId, business).error
                         && contents == old(contents)
      ensures r.Ok? ==> && contents == RemoveAt(old(contents), FindOwnedContent(images, old(contents), imageId, business).value)
                        && r.value == "DEX content deleted successfully"
                        && forall c :: c in contents ==> c.imageId != imageId
    {
      var found := FindOwnedContent(images, contents, imageId, business);
      if found.Err? {
        return Err(found.error);
      }
      var k := found.value;
      ghost var before := contents;
      contents := RemoveAt(contents, k);
      forall c | c in contents ensures c.imageId != imageId {
        var j :| 0 <= j < |contents| && contents[j] == c;
        if j < k { assert before[j] == c; } else { assert before[j + 1] == c; }
      }
      r := Ok("DEX content deleted successfully");
    }

    /** `PATCH /images/{image_id}/dex/toggle`: flips `is_active` of the
        image's content and changes nothing else. */
    method Toggle(business: string, imageId: int) returns (r: Result<ToggleReceipt>)
      requires Valid()
      modifies this
      ensures Valid()
      ensures images == old(images) && nextContentId == old(nextContentId)
      ensures r.Err? <==> FindOwnedContent(images, old(contents), imageId, business).Err?
      ensures r.Err? ==> r.error == FindOwnedContent(images, old(contents), imageId, business).error
                         && contents == old(contents)
      ensures r.Ok? ==> var k := FindOwnedContent(images, old(contents), imageId, business).value;
                        && contents == old(contents)[k := old(contents)[k].(isActive := !old(contents)[k].isActive)]
                        && r.value.isActive == contents[k].isActive
                        && r.value.message == (if r.value.isActive then "DEX content activated" else "DEX content deactivated")
    {
      var found := FindOwnedContent(images, contents, imageId, business);
      if found.Err? {
        return Err(found.error);
      }
      var k := found.value;
      var flipped := contents[k].(isActive := !contents[k].isActive);
      contents := contents[k := flipped];
      var message := if flipped.isActive then "DEX content activated" else "DEX content deactivated";
      r := Ok(ToggleReceipt(message, flipped.isActive));
    }

    /** Toggling twice restores the table. */
    method ToggleTwice(business: string, imageId: int)
      requires Valid()
      modifies this
      ensures Valid()
      ensures images == old(images) && contents == old(contents) && nextContentId == old(nextContentId)
    {
      var first := Toggle(business, imageId);
      var second := Toggle(business, imageId);
    }

    /** `DELETE /images/{image_id}`: an owned image goes, and with it every
        content record attached to it. */
    method DeleteImage(business: string, imageId: int) returns (r: Result<string>)
      requires Valid()
      modifies this
      ensures Valid()
      ensures nextContentId == old(nextContentId)
      ensures OwnedImageIndex(old(images), imageId, business).None? ==>
                && r == Err(HttpError(404, "Image not found or not owned by this business"))
                && images == old(images) && contents == old(contents)
      ensures OwnedImageIndex(old(images), imageId, business).Some? ==>
                && r == Ok("Image and associated DEX content deleted successfully")
                && images == RemoveAt(old(images), OwnedImageIndex(old(images), imageId, business).value)
                && contents == WithoutImage(old(contents), imageId)
                && forall k :: 0 <= k < |images| ==> images[k].id != imageId
    {
      var found := OwnedImageIndex(images, imageId, business);
      if found.None? {
        return Err(HttpError(404, "Image not found or not owned by this business"));
      }
      var k := found.value;
      WithoutImageKeepsKeys(contents, imageId);
      CascadeKeepsImages(images, contents, k);
      contents := WithoutImage(contents, imageId);
      images := RemoveAt(images, k);
      r := Ok("Image and associated DEX content deleted successfully");
    }

    /** `GET /images`: every image of the business, in table order, paired
        with its first content record whether active or not. */
    method GetBusinessImages(business: string) returns (listing: seq<ImageListing>)
      ensures |listing| == |Owned(images, business)|
      ensures forall k :: 0 <= k < |listing| ==> && listing[k].image == Owned(images, business)[k]
                                                 && listing[k].content == FirstContentFor(contents, listing[k].image.id)
    {
      listing := [];
      ghost var owned: seq<ExtractedImage> := [];
      var i := 0;
      while i < |images|
        invariant 0 <= i <= |images|
        invariant owned == Owned(images[..i], business)
        invariant |listing| == |owned|
        invariant forall k :: 0 <= k < |listing| ==> && listing[k].image == owned[k]
                                                     && listing[k].content == FirstContentFor(contents, owned[k].id)
      {
        assert images[..i + 1][..i] == images[..i];
        var image := images[i];
        if OwnedBy(image, business) {
          listing := listing + [ImageListing(image, FirstContentFor(contents, image.id))];
          owned := owned + [image];
        }
        i := i + 1;
      }
      assert images[..|images|] == images;
    }

    /** `GET /stats` (and the counts of `GET /profile`): only the images of
        the business and the content joined to them are counted. */
    function Stats(business: string): (s: BusinessStats)
      reads this
      ensures s.totalImages == |Owned(images, business)|
      ensures s.totalDexContent == |JoinedContents(contents, images, business)|
      ensures s.activeDexContent == |ActiveOnly(JoinedContents(contents, images, business))|
      ensures s.activeDexContent <= s.totalDexContent
      ensures s.totalImages <= |images| && s.totalDexContent <= |contents|
      ensures s.recentMatches == 0
    {
      var joined := JoinedContents(contents, images, business);
      BusinessStats(|Owned(images, business)|, |joined|, |ActiveOnly(joined)|, 0)
    }
  }

  /** `GET /profile`: the name, its reference, the first eight characters of
      the API key and the three counts of `GET /stats` (without its
      recent-matches field). */
  datatype Profile = Profile(businessName: string, businessReference: string, apiKeyPreview: string,
                             totalImages: nat, totalDexContent: nat, activeDexContent: nat)

  function ProfileOf(store: BusinessStore, business: string, apiKey: string): (p: Profile)
    reads store
    ensures p.businessName == business
    ensures p.businessReference == BusinessReference(business)
    ensures p.apiKeyPreview == KeyPreview(apiKey)
    ensures p.totalImages == store.Stats(business).totalImages
    ensures p.totalDexContent == store.Stats(business).totalDexContent
    ensures p.activeDexContent == store.Stats(business).activeDexContent
    ensures p.activeDexContent <= p.totalDexContent
  {
    var s := store.Stats(business);
    Profile(business, BusinessReference(business), KeyPreview(apiKey),
            s.totalImages, s.totalDexContent, s.activeDexContent)
  }
}
