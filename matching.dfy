/** `match_image` of the current service: every stored reference image is
    scored against the uploaded image, a little noise is added to each score,
    and the running-best policy of `Ranking` picks the winner.  A winner is
    classified into a confidence tier and resolved to its delivery content,
    or to a synthesised fallback when it has no active content. */
module Matching {
  import opened Common
  import opened Records
  import opened Similarity
  import opened Ranking

  // ---------------------------------------------------------------------
  // Inputs of a scan
  // ---------------------------------------------------------------------

  /** What loading one stored image gives.  `FileMissing`: its path does not
      exist; `OpenFails`: `Image.open` raises; `Opened`: the image opened, and
      `gray` is its normalised raster (`None` when resizing or conversion
      raised inside the scorer) and `edgeDiff` the mean absolute difference of
      its edge field and the upload's. */
  datatype Load =
    | FileMissing
    | OpenFails
    | Opened(gray: Option<seq<int>>, edgeDiff: real)

  datatype Candidate = Candidate(image: ExtractedImage, load: Load)

  /** The uploaded image: bytes `Image.open` rejects, or an opened image with
      its normalised raster (`None` when normalisation raises). */
  datatype Upload = Unreadable(reason: string) | Readable(gray: Option<seq<int>>)

  predicate ProbeOk(probe: Option<seq<int>>)
  {
    probe.Some? ==> IsCanonical(probe.value)
  }

  predicate LoadOk(load: Load)
  {
    load.Opened? ==> load.edgeDiff >= 0.0 && ProbeOk(load.gray)
  }

  predicate WellFormed(cs: seq<Candidate>)
  {
    forall j :: 0 <= j < |cs| ==> LoadOk(cs[j].load)
  }

  /** Half-width of the uniform noise `random.uniform(-0.01, 0.01)`. */
  const NoiseBound: real := 0.01

  /** Every draw of the injected noise stream lies in [-0.01, 0.01]. */
  predicate NoiseInRange(noise: seq<real>)
  {
    forall k :: 0 <= k < |noise| ==> -NoiseBound <= noise[k] <= NoiseBound
  }

  // ---------------------------------------------------------------------
  // Scan specification
  // ---------------------------------------------------------------------

  /** How many candidates opened, i.e. how many noise draws they consume. */
  function OpenedCount(cs: seq<Candidate>): (n: nat)
    ensures n <= |cs|
  {
    if cs == [] then 0
    else OpenedCount(cs[..|cs| - 1]) + (if cs[|cs| - 1].load.Opened? then 1 else 0)
  }

  /** The score candidate `j` competes with: its similarity plus the next
      noise draw, clamped again to [0,1]; `None` for a skipped candidate.
      The generator is reseeded on every call, so candidate `j` always takes
      the draw numbered by how many candidates before it opened. */
  function NoisedScore(probe: Option<seq<int>>, op: EdgeOperator, cs: seq<Candidate>,
                       noise: seq<real>, j: int): Option<real>
    requires ProbeOk(probe) && WellFormed(cs) && |noise| >= |cs|
    requires 0 <= j < |cs|
  {
    match cs[j].load
    case Opened(gray, edgeDiff) =>
      Some(Clamp01(ImageSimilarity(probe, gray, op, edgeDiff) + noise[OpenedCount(cs[..j])]))
    case _ => None
  }

  /** The scores of all candidates, in catalog order. */
  function ScanScores(probe: Option<seq<int>>, op: EdgeOperator, cs: seq<Candidate>,
                      noise: seq<real>): (vals: seq<Option<real>>)
    requires ProbeOk(probe) && WellFormed(cs) && |noise| >= |cs|
    ensures |vals| == |cs|
  {
    seq(|cs|, j requires 0 <= j < |cs| => NoisedScore(probe, op, cs, noise, j))
  }

  datatype Best = Best(index: nat, score: real)

  /** The loop of `match_image`: returns the winning candidate and its
      noised score, or `None` when no candidate reaches the threshold. */
  method ScanCatalog(probe: Option<seq<int>>, op: EdgeOperator, cs: seq<Candidate>,
                     noise: seq<real>) returns (best: Option<Best>)
    requires ProbeOk(probe) && WellFormed(cs) && |noise| >= |cs|
    ensures best.None? <==> NoneQualifies(ScanScores(probe, op, cs, noise))
    ensures best.Some? ==> IsBest(ScanScores(probe, op, cs, noise), best.value.index)
    ensures best.Some? ==> ScanScores(probe, op, cs, noise)[best.value.index] == Some(best.value.score)
  {
    ghost var vals := ScanScores(probe, op, cs, noise);
    best := None;
    var bestSimilarity := 0.0;
    var i, k := 0, 0;
    while i < |cs|
      invariant 0 <= i <= |cs|
      invariant k == OpenedCount(cs[..i])
      invariant best.None? ==> bestSimilarity == 0.0 && NoneQualifies(vals[..i])
      invariant best.Some? ==> && IsBest(vals[..i], best.value.index)
                               && best.value.score == bestSimilarity
                               && vals[best.value.index] == Some(bestSimilarity)
    {
      ghost var before := if best.Some? then Some(best.value.index) else None;
      StepPreservesBest(vals[..i], before, bestSimilarity, vals[i]);
      ScanStep(probe, op, cs, noise, i, k);
      match cs[i].load {
        case Opened(gray, edgeDiff) =>
          var similarity := ImageSimilarity(probe, gray, op, edgeDiff);
          similarity := Clamp01(similarity + noise[k]);
          k := k + 1;
          assert vals[i] == Some(similarity);
          if similarity > bestSimilarity && similarity >= Threshold {
            best := Some(Best(i, similarity));
            bestSimilarity := similarity;
          }
        case _ =>
      }
      assert vals[..i + 1] == vals[..i] + [vals[i]];
      i := i + 1;
    }
    assert vals[..|cs|] == vals;
  }

  /** One step of the scan: candidate `i` takes draw `k` exactly when it
      opened, and its score is that draw added to its similarity. */
  lemma ScanStep(probe: Option<seq<int>>, op: EdgeOperator, cs: seq<Candidate>,
                 noise: seq<real>, i: int, k: nat)
    requires ProbeOk(probe) && WellFormed(cs) && |noise| >= |cs|
    requires 0 <= i < |cs| && k == OpenedCount(cs[..i])
    ensures OpenedCount(cs[..i + 1]) == k + (if cs[i].load.Opened? then 1 else 0)
    ensures cs[i].load.Opened? ==>
              && k < |noise|
              && ScanScores(probe, op, cs, noise)[i]
                 == Some(Clamp01(ImageSimilarity(probe, cs[i].load.gray, op, cs[i].load.edgeDiff) + noise[k]))
    ensures !cs[i].load.Opened? ==> ScanScores(probe, op, cs, noise)[i].None?
  {
    assert cs[..i + 1][..i] == cs[..i];
  }

  /** The noise moves a score by at most 0.01. */
  lemma NoiseMovesScoreLittle(probe: Option<seq<int>>, op: EdgeOperator, cs: seq<Candidate>,
                              noise: seq<real>, j: int)
    requires ProbeOk(probe) && WellFormed(cs) && |noise| >= |cs| && NoiseInRange(noise)
    requires 0 <= j < |cs| && cs[j].load.Opened?
    ensures var raw := ImageSimilarity(probe, cs[j].load.gray, op, cs[j].load.edgeDiff);
            var v := NoisedScore(probe, op, cs, noise, j);
            v.Some? && raw - NoiseBound <= v.value <= raw + NoiseBound
  {
  }

  lemma {:induction false} OpenedCountDependsOnLoads(cs: seq<Candidate>, cs': seq<Candidate>)
    requires |cs| == |cs'|
    requires forall j :: 0 <= j < |cs| ==> cs[j].load == cs'[j].load
    ensures OpenedCount(cs) == OpenedCount(cs')
  {
    if cs != [] {
      var n := |cs|;
      OpenedCountDependsOnLoads(cs[..n - 1], cs'[..n - 1]);
    }
  }

  /** Only the loaded rasters decide a scan: the catalog records themselves,
      their `is_public` flag included, play no part in which candidate
      wins. */
  lemma ScoresIgnoreRecords(probe: Option<seq<int>>, op: EdgeOperator, cs: seq<Candidate>,
                            cs': seq<Candidate>, noise: seq<real>)
    requires ProbeOk(probe) && WellFormed(cs) && |noise| >= |cs|
    requires |cs| == |cs'|
    requires forall j :: 0 <= j < |cs| ==> cs[j].load == cs'[j].load
    ensures WellFormed(cs')
    ensures ScanScores(probe, op, cs, noise) == ScanScores(probe, op, cs', noise)
  {
    assert WellFormed(cs') by {
      forall j | 0 <= j < |cs'| ensures LoadOk(cs'[j].load) {
        assert LoadOk(cs[j].load);
      }
    }
    forall j | 0 <= j < |cs|
      ensures NoisedScore(probe, op, cs, noise, j) == NoisedScore(probe, op, cs', noise, j)
    {
      OpenedCountDependsOnLoads(cs[..j], cs'[..j]);
    }
  }

  // ---------------------------------------------------------------------
  // Confidence tier and duplicate warning
  // ---------------------------------------------------------------------

  datatype Quality = High | Medium | Low

  /** `"high" if score > 0.8 else "medium" if score > 0.6 else "low"`. */
  function Tier(score: real): Quality
  {
    if score > 0.8 then High else if score > 0.6 then Medium else Low
  }

  function QualityRank(q: Quality): nat
  {
    match q
    case Low => 0
    case Medium => 1
    case High => 2
  }

  /** A higher score never gets a lower tier. */
  lemma TierMonotonic(s: real, t: real)
    requires s <= t
    ensures QualityRank(Tier(s)) <= QualityRank(Tier(t))
  {
  }

  /** A reported match reaches the threshold 0.7, so it is never "low". */
  lemma MatchedTierNeverLow(score: real)
    requires score >= Threshold
    ensures Tier(score) != Low
  {
  }

  /** The operator warning for a score above 0.95.  It is only logged: the
      response does not carry it. */
  function PossibleDuplicate(score: real): (warn: bool)
    ensures warn ==> Tier(score) == High
  {
    score > 0.95
  }

  // ---------------------------------------------------------------------
  // Content resolution
  // ---------------------------------------------------------------------

  /** The relative URLs the envelope hands out. */
  datatype Link =
    | DeliverLink(dexId: int)
    | ArLink(dexId: int)
    | QrLink(dexId: int)
    | BusinessPage(reference: Option<string>)
    | BusinessQr(reference: Option<string>)

  /** The URL text of a link. */
  function Path(l: Link): string
  {
    match l
    case DeliverLink(id) => "/dex/deliver/" + IntText(id)
    case ArLink(id) => "/dex/ar/" + IntText(id)
    case QrLink(id) => "/dex/qr/" + IntText(id)
    case BusinessPage(reference) => "/business/" + Text(reference)
    case BusinessQr(reference) => "/dex/qr/business/" + Text(reference)
  }

  datatype DeliveryOptions = DeliveryOptions(
    arEnabled: bool,
    videoAvailable: bool,
    webpageAvailable: bool,
    directLink: Link,
    arLink: Option<Link>,
    qrCode: Link)

  /** The `dex_content` object of a match response. */
  datatype DexEnvelope = DexEnvelope(
    id: Option<int>,
    title: string,
    description: string,
    contentType: string,
    contentUrl: Option<string>,
    contentData: Option<string>,
    options: DeliveryOptions)

  /** The delivery directives agree with the content they describe: an AR
      link exactly when AR is enabled, AR exactly for the AR kinds, video
      exactly for video, a webpage exactly when there is a URL, and every
      link of real content points at that content's id. */
  predicate DirectivesConsistent(e: DexEnvelope)
  {
    && (e.options.arEnabled <==> e.options.arLink.Some?)
    && (e.options.arEnabled <==> IsArKind(e.contentType))
    && (e.options.videoAvailable <==> e.contentType == "video")
    && (e.options.webpageAvailable <==> e.contentUrl.Some?)
    && (e.id.Some? ==> && e.options.directLink == DeliverLink(e.id.value)
                       && e.options.qrCode == QrLink(e.id.value)
                       && (e.options.arLink.Some? ==> e.options.arLink.value == ArLink(e.id.value)))
  }

  /** The envelope built from stored content. */
  function ContentEnvelope(c: DexContent): DexEnvelope
  {
    DexEnvelope(
      Some(c.id), c.title, c.description, c.contentType, c.contentUrl, c.contentData,
      DeliveryOptions(
        IsArKind(c.contentType),
        c.contentType == "video",
        c.contentUrl.Some?,
        DeliverLink(c.id),
        if IsArKind(c.contentType) then Some(ArLink(c.id)) else None,
        QrLink(c.id)))
  }

  /** The envelope synthesised for a match without active content: a
      webpage pointing at the business landing page. */
  function FallbackEnvelope(image: ExtractedImage): DexEnvelope
  {
    DexEnvelope(
      None,
      "Learn more about " + Text(image.businessName),
      "Discover more about this " + Text(image.imageType) + " from " + Text(image.businessName),
      "webpage",
      Some(Path(BusinessPage(image.businessReference))),
      None,
      DeliveryOptions(false, false, true,
                      BusinessPage(image.businessReference), None,
                      BusinessQr(image.businessReference)))
  }

  /** The first active content record attached to image `imageId`. */
  function FirstActiveContent(contents: seq<DexContent>, imageId: int): (r: Option<DexContent>)
    ensures r.Some? ==> r.value in contents && r.value.imageId == imageId && r.value.isActive
    ensures r.None? ==> forall c :: c in contents ==> !(c.imageId == imageId && c.isActive)
  {
    if contents == [] then None
    else if contents[0].imageId == imageId && contents[0].isActive then Some(contents[0])
    else FirstActiveContent(contents[1..], imageId)
  }

  /** The content a match delivers: its image's active content, or the
      fallback.  Either way the directives are consistent, and the caller
      always receives content with a URL to open. */
  function ResolveContent(image: ExtractedImage, contents: seq<DexContent>): (e: DexEnvelope)
    ensures DirectivesConsistent(e)
    ensures e.id.Some? ==> exists c :: && c in contents && c.id == e.id.value && c.imageId == image.id
                                       && c.isActive && e.contentType == c.contentType
                                       && e.contentUrl == c.contentUrl
                                       && e.title == c.title && e.description == c.description
                                       && e.contentData == c.contentData
    ensures e.id.None? ==> && (forall c :: c in contents ==> !(c.imageId == image.id && c.isActive))
                           && e.title == "Learn more about " + Text(image.businessName)
                           && e.description == "Discover more about this " + Text(image.imageType)
                                               + " from " + Text(image.businessName)
                           && e.contentType == "webpage"
                           && e.contentUrl == Some(Path(BusinessPage(image.businessReference)))
                           && e.contentData.None?
                           && !e.options.arEnabled && !e.options.videoAvailable
                           && e.options.directLink == BusinessPage(image.businessReference)
                           && e.options.qrCode == BusinessQr(image.businessReference)
  {
    match FirstActiveContent(contents, image.id)
    case Some(c) => ContentEnvelope(c)
    case None => FallbackEnvelope(image)
  }

  // ---------------------------------------------------------------------
  // The endpoint
  // ---------------------------------------------------------------------

  datatype MatchResponse =
    | Matched(similarityScore: real, matchConfidence: real, reference: ExtractedImage,
              matchQuality: Quality, dexContent: DexEnvelope)
    | NoMatch(message: string)
    | ProcessingError(message: string)

  /** `POST /match-image/`. */
  method MatchImage(upload: Upload, op: EdgeOperator, cs: seq<Candidate>, noise: seq<real>,
                    contents: seq<DexContent>) returns (r: MatchResponse)
    requires upload.Readable? ==> ProbeOk(upload.gray)
    requires WellFormed(cs) && |noise| >= |cs|
    ensures upload.Unreadable? <==> r.ProcessingError?
    ensures r.ProcessingError? ==> r.message == "Error processing image: " + upload.reason
    ensures r.NoMatch? ==> r.message == "No match found above threshold"
    ensures upload.Readable? ==> (r.NoMatch? <==> NoneQualifies(ScanScores(upload.gray, op, cs, noise)))
    ensures r.Matched? ==> && upload.Readable?
                           && exists i :: && IsBest(ScanScores(upload.gray, op, cs, noise), i)
                                          && cs[i].image == r.reference
                                          && ScanScores(upload.gray, op, cs, noise)[i] == Some(r.similarityScore)
    ensures r.Matched? ==> && r.similarityScore >= Threshold
                           && r.matchConfidence == r.similarityScore
                           && r.matchQuality == Tier(r.similarityScore)
                           && r.matchQuality != Low
                           && r.dexContent == ResolveContent(r.reference, contents)
  {
    if upload.Unreadable? {
      return ProcessingError("Error processing image: " + upload.reason);
    }
    var best := ScanCatalog(upload.gray, op, cs, noise);
    if best.None? {
      return NoMatch("No match found above threshold");
    }
    var winner := cs[best.value.index].image;
    var score := best.value.score;
    MatchedTierNeverLow(score);
    r := Matched(score, score, winner, Tier(score), ResolveContent(winner, contents));
  }

  /** A catalog holding an exact copy of the upload always produces a match,
      and the match is "high": the copy scores at least 0.99 after noise. */
  lemma DuplicateGivesHighMatch(a: seq<int>, op: EdgeOperator, cs: seq<Candidate>,
                                noise: seq<real>, j: int)
    requires IsCanonical(a) && WellFormed(cs) && |noise| >= |cs| && NoiseInRange(noise)
    requires 0 <= j < |cs| && cs[j].load == Opened(Some(a), 0.0)
    ensures !NoneQualifies(ScanScores(Some(a), op, cs, noise))
    ensures forall i :: IsBest(ScanScores(Some(a), op, cs, noise), i) ==>
                        Tier(ScanScores(Some(a), op, cs, noise)[i].value) == High
  {
    var vals := ScanScores(Some(a), op, cs, noise);
    SimilarityOfIdentical(a, op);
    NoiseMovesScoreLittle(Some(a), op, cs, noise, j);
    assert vals[j].value >= 0.99;
    assert Qualifies(vals[j]);
  }
}
