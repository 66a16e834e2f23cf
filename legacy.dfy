/** The earlier service kept under `imageprocessing/imageprocessing`: an
    MSE-only scorer on 100×100 rasters and the same running-best scan,
    without noise, answering with the record's fields or an error dict. */
module Legacy {
  import opened Common
  import opened Records
  import opened Similarity
  import opened Ranking
  import opened Matching

  const LegacySide := 100

  /** A normalised 100×100 8-bit grayscale raster. */
  predicate LegacyCanonical(a: seq<int>)
  {
    |a| == LegacySide * LegacySide && IsGray(a)
  }

  /** `max(0, 1 - mse/65025)`, 0.0 when normalising either image raised. */
  function LegacySimilarity(probe: Option<seq<int>>, reference: Option<seq<int>>): (r: real)
    requires probe.Some? ==> LegacyCanonical(probe.value)
    requires reference.Some? ==> LegacyCanonical(reference.value)
    ensures 0.0 <= r <= 1.0
    ensures r == 1.0 <==> probe.Some? && reference.Some? && probe.value == reference.value
    ensures probe.None? || reference.None? ==> r == 0.0
  {
    if probe.None? || reference.None? then 0.0
    else
      var s := MseSubScore(probe.value, reference.value);
      if s < 0.0 then 0.0 else s
  }

  /** The scorer as written: the difference of two 8-bit arrays is squared
      in 8 bits as well. */
  function LegacySimilarityAsWritten(probe: Option<seq<int>>, reference: Option<seq<int>>): (r: real)
    requires probe.Some? ==> LegacyCanonical(probe.value)
    requires reference.Some? ==> LegacyCanonical(reference.value)
    ensures 0.0 <= r <= 1.0
    ensures probe.Some? && reference.Some? ==> r >= 1.0 - 255.0 / MaxSquaredError
  {
    if probe.None? || reference.None? then 0.0
    else
      var s := MseSubScoreAsWritten(probe.value, reference.value);
      if s < 0.0 then 0.0 else s
  }

  /** A uniform raster of gray level `v`. */
  function Flat(v: int): (a: seq<int>)
    requires 0 <= v < 256
    ensures LegacyCanonical(a)
    ensures forall i :: 0 <= i < |a| ==> a[i] == v
  {
    seq(LegacySide * LegacySide, _ => v)
  }

  /** As written, a black upload matches a mid-grey reference perfectly,
      while the intended score tells them apart. */
  lemma LegacyWrapMissesDifference()
    ensures Flat(0) != Flat(128)
    ensures LegacySimilarityAsWritten(Some(Flat(0)), Some(Flat(128))) == 1.0
    ensures LegacySimilarity(Some(Flat(0)), Some(Flat(128))) < 1.0
  {
    var a, b := Flat(0), Flat(128);
    assert a[0] != b[0];
    forall i | 0 <= i < |a|
      ensures Wrap8(Wrap8(a[i] - b[i]) * Wrap8(a[i] - b[i])) == 0
    {
      assert Wrap8(a[i] - b[i]) == 128;
      assert 128 * 128 == 64 * 256;
    }
    WrappedSquaredErrorSumVanishes(a, b);
  }

  /** As written, every pair of normalised rasters clears the 0.7 match
      threshold, so any catalog image that loads is a match. */
  lemma LegacyWrapAdmitsEveryImage(a: seq<int>, b: seq<int>)
    requires LegacyCanonical(a) && LegacyCanonical(b)
    ensures LegacySimilarityAsWritten(Some(a), Some(b)) >= Threshold
  {
    assert 1.0 - 255.0 / MaxSquaredError >= Threshold;
  }

  // ---------------------------------------------------------------------
  // The scan
  // ---------------------------------------------------------------------

  /** What loading one stored image gives: its path is missing, opening it
      raises, or it opened and normalised to `gray` (`None` when the scorer
      raised). */
  datatype Stored = Missing | LoadFails | Loaded(gray: Option<seq<int>>)

  datatype LegacyCandidate = LegacyCandidate(image: ExtractedImage, stored: Stored)

  predicate LegacyProbeOk(probe: Option<seq<int>>)
  {
    probe.Some? ==> LegacyCanonical(probe.value)
  }

  predicate LegacyWellFormed(cs: seq<LegacyCandidate>)
  {
    forall j :: 0 <= j < |cs| ==> cs[j].stored.Loaded? ==> LegacyProbeOk(cs[j].stored.gray)
  }

  /** The score of candidate `j`, `None` when it is skipped. */
  function LegacyScore(probe: Option<seq<int>>, cs: seq<LegacyCandidate>, j: int): Option<real>
    requires LegacyProbeOk(probe) && LegacyWellFormed(cs) && 0 <= j < |cs|
  {
    match cs[j].stored
    case Loaded(gray) => Some(LegacySimilarity(probe, gray))
    case _ => None
  }

  function LegacyScores(probe: Option<seq<int>>, cs: seq<LegacyCandidate>): (vals: seq<Option<real>>)
    requires LegacyProbeOk(probe) && LegacyWellFormed(cs)
    ensures |vals| == |cs|
  {
    seq(|cs|, j requires 0 <= j < |cs| => LegacyScore(probe, cs, j))
  }

  datatype LegacyResponse =
    | Found(record: ExtractedImage, matchConfidence: real)
    | Failure(error: string)

  /** `POST /match-image/` of the earlier service. */
  method LegacyMatch(upload: Upload, cs: seq<LegacyCandidate>) returns (r: LegacyResponse)
    requires upload.Readable? ==> LegacyProbeOk(upload.gray)
    requires LegacyWellFormed(cs)
    ensures upload.Unreadable? ==> r == Failure("Error processing image: " + upload.reason)
    ensures upload.Readable? ==> (r == Failure("No match found") <==> NoneQualifies(LegacyScores(upload.gray, cs)))
    ensures upload.Readable? && r.Failure? ==> r.error == "No match found"
    ensures r.Found? ==> && upload.Readable?
                         && r.matchConfidence >= Threshold
                         && exists i :: && IsBest(LegacyScores(upload.gray, cs), i)
                                        && cs[i].image == r.record
                                        && LegacyScores(upload.gray, cs)[i] == Some(r.matchConfidence)
  {
    if upload.Unreadable? {
      return Failure("Error processing image: " + upload.reason);
    }
    var probe := upload.gray;
    ghost var vals := LegacyScores(probe, cs);
    var bestMatch: Option<ExtractedImage> := None;
    ghost var bestIndex: Option<nat> := None;
    var bestSimilarity := 0.0;
    var i := 0;
    while i < |cs|
      invariant 0 <= i <= |cs|
      invariant bestMatch.Some? <==> bestIndex.Some?
      invariant bestIndex.None? ==> bestSimilarity == 0.0 && NoneQualifies(vals[..i])
      invariant bestIndex.Some? ==> && IsBest(vals[..i], bestIndex.value)
                                    && vals[bestIndex.value] == Some(bestSimilarity)
                                    && bestMatch.value == cs[bestIndex.value].image
    {
      StepPreservesBest(vals[..i], bestIndex, bestSimilarity, vals[i]);
      match cs[i].stored {
        case Loaded(gray) =>
          var similarity := LegacySimilarity(probe, gray);
          if similarity > bestSimilarity && similarity >= Threshold {
            bestSimilarity := similarity;
            bestMatch := Some(cs[i].image);
            bestIndex := Some(i);
          }
        case _ =>
      }
      assert vals[..i + 1] == vals[..i] + [vals[i]];
      i := i + 1;
    }
    assert vals[..|cs|] == vals;
    if bestMatch.Some? {
      r := Found(bestMatch.value, bestSimilarity);
    } else {
      r := Failure("No match found");
    }
  }

  /** When the catalog holds exact copies of the upload, the first copy
      wins, with confidence 1.0. */
  lemma FirstExactCopyWins(a: seq<int>, cs: seq<LegacyCandidate>, j: int, i: int)
    requires LegacyCanonical(a) && LegacyWellFormed(cs)
    requires 0 <= j < |cs| && cs[j].stored == Loaded(Some(a))
    requires IsBest(LegacyScores(Some(a), cs), i)
    ensures cs[i].stored == Loaded(Some(a))
    ensures LegacyScores(Some(a), cs)[i] == Some(1.0)
    ensures i <= j
  {
    var vals := LegacyScores(Some(a), cs);
    assert vals[j] == Some(1.0);
    assert vals[i].value == 1.0;
  }

  /** A catalog holding an exact copy of the upload always matches. */
  lemma ExactCopyMatches(a: seq<int>, cs: seq<LegacyCandidate>, j: int)
    requires LegacyCanonical(a) && LegacyWellFormed(cs)
    requires 0 <= j < |cs| && cs[j].stored == Loaded(Some(a))
    ensures !NoneQualifies(LegacyScores(Some(a), cs))
  {
    assert LegacyScores(Some(a), cs)[j] == Some(1.0);
  }
}
