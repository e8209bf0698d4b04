/** The fallback analysis session (scan-fallback.js): the file identity
    key, the per-file keypoint cache, the skip sets filled by the preview
    delete buttons, the reset, and the image and video analysis loops that
    consult them. The pose estimator is a parameter: `estimate(f, run)` is
    what its `run`-th call returns for file `f` (`None` for a failure or a
    timeout). */
module Session {
  import opened Wrappers
  import opened Text
  import opened Pose
  import ScanFallback

  datatype File = File(name: string, size: nat, lastModified: Option<nat>)

  /** `f.lastModified || 0`. */
  function LastModifiedOrZero(f: File): nat {
    f.lastModified.GetOr(0)
  }

  /** `fileKey`: `${name}_${size}_${lastModified || 0}`. */
  function FileKey(f: File): (key: string)
  {
    f.name + "_" + NatToString(f.size) + "_" + NatToString(LastModifiedOrZero(f))
  }

  /** Reads a file key back from the right: the text after the last `_` is
      the modification time, the text between the last two is the size. */
  function ParseFileKey(key: string): (r: Option<(string, nat, nat)>)
    ensures r.Some? ==> |r.value.0| < |key|
  {
    match LastIndexOf(key, '_')
    case None => None
    case Some(j) =>
      var prefix := key[..j];
      var tail := key[j + 1..];
      match LastIndexOf(prefix, '_')
      case None => None
      case Some(i) =>
        var sizeText := prefix[i + 1..];
        if AllDigits(sizeText) && AllDigits(tail) then Some((prefix[..i], ParseDigits(sizeText), ParseDigits(tail)))
        else None
  }

  /** The key determines the name, the size and the modification time
      (missing counted as 0), even when the name itself holds `_` and
      digits. */
  lemma ParseFileKeyRoundTrip(f: File)
    ensures ParseFileKey(FileKey(f)) == Some((f.name, f.size, LastModifiedOrZero(f)))
  {
    var s1 := NatToString(f.size);
    var s2 := NatToString(LastModifiedOrZero(f));
    var a := f.name + "_" + s1;
    assert FileKey(f) == a + ['_'] + s2;
    LastIndexBeforeDigits(a, '_', s2);
    assert FileKey(f)[..|a|] == a;
    assert FileKey(f)[|a| + 1..] == s2;
    assert a == f.name + ['_'] + s1;
    LastIndexBeforeDigits(f.name, '_', s1);
    assert a[..|f.name|] == f.name;
    assert a[|f.name| + 1..] == s1;
    ParseNatToString(f.size);
    ParseNatToString(LastModifiedOrZero(f));
  }

  /** Two files share a cache entry exactly when name, size and
      modification time (missing counted as 0) agree. */
  lemma FileKeyInjective(f: File, g: File)
    ensures FileKey(f) == FileKey(g) <==>
              f.name == g.name && f.size == g.size && LastModifiedOrZero(f) == LastModifiedOrZero(g)
  {
    if FileKey(f) == FileKey(g) {
      ParseFileKeyRoundTrip(f);
      ParseFileKeyRoundTrip(g);
    }
  }

  /** The cache keys of a sequence of files. */
  function KeysOf(fs: seq<File>): set<string> {
    if |fs| == 0 then {} else KeysOf(fs[..|fs| - 1]) + {FileKey(fs[|fs| - 1])}
  }

  /** One more file adds exactly its key. */
  lemma KeysOfSnoc(fs: seq<File>, f: File)
    ensures KeysOf(fs + [f]) == KeysOf(fs) + {FileKey(f)}
  {
    assert (fs + [f])[..|fs|] == fs;
  }

  /** What the image loop caches for a file it has not seen: the best of
      three estimator runs, `[]` when none found a person. */
  function ImageBest(estimate: (File, nat) -> Option<seq<Keypoint>>, f: File): seq<Keypoint> {
    ScanFallback.Best(ScanFallback.Kept([estimate(f, 0), estimate(f, 1), estimate(f, 2)]))
  }

  /** What the video loop takes from a video: the best of two runs. */
  function VideoBest(estimate: (File, nat) -> Option<seq<Keypoint>>, f: File): seq<Keypoint> {
    ScanFallback.Best(ScanFallback.Kept([estimate(f, 0), estimate(f, 1)]))
  }

  /** A video the loop estimates: not deleted, and its frame has no zero
      side. */
  predicate VideoEligible(skip: set<string>, frameSize: File -> (nat, nat), f: File) {
    FileKey(f) !in skip && frameSize(f).0 != 0 && frameSize(f).1 != 0
  }

  /** Every image before position i that was not deleted is cached with no
      keypoints. */
  predicate EmptyBefore(files: seq<File>, i: nat, skip: set<string>, cache: map<string, seq<Keypoint>>)
    requires i <= |files|
  {
    forall k :: 0 <= k < i && FileKey(files[k]) !in skip ==> FileKey(files[k]) in cache && cache[FileKey(files[k])] == []
  }

  /** Every eligible video before position i gave no keypoints. */
  predicate NoVideoBefore(files: seq<File>, i: nat, skip: set<string>, frameSize: File -> (nat, nat),
                          estimate: (File, nat) -> Option<seq<Keypoint>>)
    requires i <= |files|
  {
    forall k :: 0 <= k < i && VideoEligible(skip, frameSize, files[k]) ==> VideoBest(estimate, files[k]) == []
  }

  /** The cache grew from `before` by the files estimated so far and by
      nothing else: each is from the list, not deleted, was not cached
      before, and is now cached with the best of its runs. */
  predicate EstimatedCached(estimated: seq<File>, files: seq<File>, skip: set<string>,
                            before: map<string, seq<Keypoint>>, cache: map<string, seq<Keypoint>>,
                            estimate: (File, nat) -> Option<seq<Keypoint>>)
  {
    && (forall id :: id in before ==> id in cache && cache[id] == before[id])
    && cache.Keys == before.Keys + KeysOf(estimated)
    && forall f :: f in estimated ==>
      f in files && FileKey(f) !in skip && FileKey(f) !in before && FileKey(f) in cache
      && cache[FileKey(f)] == ImageBest(estimate, f)
  }

  /** Estimating one more file that was not cached keeps that record. */
  lemma EstimatedCachedNext(estimated: seq<File>, files: seq<File>, skip: set<string>,
                            before: map<string, seq<Keypoint>>, cache: map<string, seq<Keypoint>>,
                            estimate: (File, nat) -> Option<seq<Keypoint>>, f: File,
                            cache': map<string, seq<Keypoint>>)
    requires EstimatedCached(estimated, files, skip, before, cache, estimate)
    requires f in files && FileKey(f) !in skip && FileKey(f) !in cache
    requires cache' == cache[FileKey(f) := ImageBest(estimate, f)]
    ensures EstimatedCached(estimated + [f], files, skip, before, cache', estimate)
  {
    KeysOfSnoc(estimated, f);
  }

  /** The image loop's progress over the first i files: either the file at
      position `at` gave keypoints and every earlier file not deleted is
      cached as empty, or nothing was found and every file before i not
      deleted is cached as empty. */
  predicate ImagesScanned(files: seq<File>, i: nat, found: Option<(File, seq<Keypoint>)>, at: nat,
                          skip: set<string>, cache: map<string, seq<Keypoint>>)
  {
    && i <= |files|
    && (found.Some? ==>
          at + 1 == i && files[at] == found.value.0 && FileKey(found.value.0) !in skip && |found.value.1| > 0
          && FileKey(found.value.0) in cache && cache[FileKey(found.value.0)] == found.value.1
          && EmptyBefore(files, at, skip, cache))
    && (found.None? ==> EmptyBefore(files, i, skip, cache))
  }

  /** One more image, deleted or cached with `kps`: the image is found when
      it is not deleted and `kps` is not empty; otherwise the prefix of
      empty images grows by one. */
  lemma ImagesScannedNext(files: seq<File>, i: nat, at: nat, skip: set<string>,
                          cache: map<string, seq<Keypoint>>, cache': map<string, seq<Keypoint>>, kps: seq<Keypoint>)
    requires i < |files| && ImagesScanned(files, i, None, at, skip, cache)
    requires forall id :: id in cache ==> id in cache' && cache'[id] == cache[id]
    requires FileKey(files[i]) !in skip ==> FileKey(files[i]) in cache' && cache'[FileKey(files[i])] == kps
    ensures FileKey(files[i]) !in skip && |kps| > 0 ==> ImagesScanned(files, i + 1, Some((files[i], kps)), i, skip, cache')
    ensures FileKey(files[i]) in skip || |kps| == 0 ==> ImagesScanned(files, i + 1, None, at, skip, cache')
  {
  }

  /** Every file estimated so far lies among the first n files. */
  predicate EstimatedWithin(estimated: seq<File>, files: seq<File>, n: nat)
    requires n <= |files|
  {
    forall f :: f in estimated ==> f in files[..n]
  }

  /** The next file may be estimated too. */
  lemma EstimatedWithinNext(estimated: seq<File>, files: seq<File>, i: nat)
    requires i < |files| && EstimatedWithin(estimated, files, i)
    ensures EstimatedWithin(estimated, files, i + 1)
    ensures EstimatedWithin(estimated + [files[i]], files, i + 1)
  {
    assert files[..i + 1] == files[..i] + [files[i]];
  }

  /** With every image scanned and nothing found, every image not deleted
      is cached as empty. */
  lemma EmptyBeforeAll(files: seq<File>, skip: set<string>, cache: map<string, seq<Keypoint>>)
    requires EmptyBefore(files, |files|, skip, cache)
    ensures forall f :: f in files && FileKey(f) !in skip ==> FileKey(f) in cache && cache[FileKey(f)] == []
  {
    forall f | f in files && FileKey(f) !in skip
      ensures FileKey(f) in cache && cache[FileKey(f)] == []
    {
      var k :| 0 <= k < |files| && files[k] == f;
    }
  }

  /** A video that is passed over or gives nothing extends the prefix. */
  lemma NoVideoBeforeNext(files: seq<File>, i: nat, skip: set<string>, frameSize: File -> (nat, nat),
                          estimate: (File, nat) -> Option<seq<Keypoint>>)
    requires i < |files| && NoVideoBefore(files, i, skip, frameSize, estimate)
    requires VideoEligible(skip, frameSize, files[i]) ==> VideoBest(estimate, files[i]) == []
    ensures NoVideoBefore(files, i + 1, skip, frameSize, estimate)
  {
  }

  /** How an analysis ends: nothing to analyse, no person in any input, or
      the keypoints of the first input that found one. */
  datatype Outcome = NothingToAnalyze | NoPersonDetected | Detected(source: File, kps: seq<Keypoint>)

  class FallbackSession {
    var keypointCache: map<string, seq<Keypoint>>
    var skipImages: set<string>
    var skipVideos: set<string>

    constructor()
      ensures keypointCache == map[] && skipImages == {} && skipVideos == {}
    {
      keypointCache := map[];
      skipImages := {};
      skipVideos := {};
    }

    /** The delete button of an image preview. */
    method DeleteImagePreview(f: File)
      modifies this
      ensures skipImages == old(skipImages) + {FileKey(f)}
      ensures skipVideos == old(skipVideos) && keypointCache == old(keypointCache)
    {
      skipImages := skipImages + {FileKey(f)};
    }

    /** The delete button of a video preview. */
    method DeleteVideoPreview(f: File)
      modifies this
      ensures skipVideos == old(skipVideos) + {FileKey(f)}
      ensures skipImages == old(skipImages) && keypointCache == old(keypointCache)
    {
      skipVideos := skipVideos + {FileKey(f)};
    }

    /** `fallbackClear`: forgets the deleted previews; the keypoint cache is
      kept. */
    method Clear()
      modifies this
      ensures skipImages == {} && skipVideos == {}
      ensures keypointCache == old(keypointCache)
    {
      skipImages := {};
      skipVideos := {};
    }

    /** The image loop: every file not deleted is looked up in the cache
        and, on a miss only, estimated three times; the best run (possibly
        empty) is cached. The loop stops at the first non-empty result. */
    method AnalyzeImages(files: seq<File>, estimate: (File, nat) -> Option<seq<Keypoint>>)
      returns (found: Option<(File, seq<Keypoint>)>, estimated: seq<File>)
      modifies this
      ensures skipImages == old(skipImages) && skipVideos == old(skipVideos)
      ensures forall id :: id in old(keypointCache) ==> id in keypointCache && keypointCache[id] == old(keypointCache)[id]
      ensures keypointCache.Keys == old(keypointCache).Keys + KeysOf(estimated)
      ensures forall f :: f in estimated ==>
                f in files && FileKey(f) !in skipImages && FileKey(f) !in old(keypointCache) && FileKey(f) in keypointCache
                && keypointCache[FileKey(f)] == ImageBest(estimate, f)
      ensures found.Some? ==>
                found.value.0 in files && FileKey(found.value.0) !in skipImages && |found.value.1| > 0
                && FileKey(found.value.0) in keypointCache && keypointCache[FileKey(found.value.0)] == found.value.1
      ensures found.Some? ==>
                exists i :: 0 <= i < |files| && files[i] == found.value.0 && EmptyBefore(files, i, skipImages, keypointCache)
                            && forall f :: f in estimated ==> f in files[..i + 1]
      ensures found.None? ==>
                forall f :: f in files && FileKey(f) !in skipImages ==>
                  FileKey(f) in keypointCache && keypointCache[FileKey(f)] == []
    {
      found := None;
      estimated := [];
      ghost var at := 0;
      var i := 0;
      while i < |files| && found.None?
        invariant 0 <= i <= |files|
        invariant skipImages == old(skipImages) && skipVideos == old(skipVideos)
        invariant EstimatedCached(estimated, files, skipImages, old(keypointCache), keypointCache, estimate)
        invariant ImagesScanned(files, i, found, at, skipImages, keypointCache)
        invariant EstimatedWithin(estimated, files, i)
      {
        var f := files[i];
        var id := FileKey(f);
        ghost var before := keypointCache;
        if id !in skipImages {
          var kps, isNew := CachedEstimate(f, estimate);
          EstimatedWithinNext(estimated, files, i);
          if isNew {
            EstimatedCachedNext(estimated, files, skipImages, old(keypointCache), before, estimate, f, keypointCache);
            estimated := estimated + [f];
          }
          ImagesScannedNext(files, i, at, skipImages, before, keypointCache, kps);
          if |kps| > 0 {
            found := Some((f, kps));
            at := i;
          }
        } else {
          ImagesScannedNext(files, i, at, skipImages, before, keypointCache, []);
          EstimatedWithinNext(estimated, files, i);
        }
        i := i + 1;
      }
      if found.Some? {
        assert 0 <= at < |files| && files[at] == found.value.0 && EmptyBefore(files, at, skipImages, keypointCache)
               && EstimatedWithin(estimated, files, at + 1);
      } else {
        EmptyBeforeAll(files, skipImages, keypointCache);
      }
    }

    /** One file of the image loop: the cached keypoints when the file's key
        is cached (even when they are empty), otherwise the best of three
        estimator runs, which is then cached. */
    method CachedEstimate(f: File, estimate: (File, nat) -> Option<seq<Keypoint>>)
      returns (kps: seq<Keypoint>, isNew: bool)
      modifies this
      ensures skipImages == old(skipImages) && skipVideos == old(skipVideos)
      ensures isNew <==> FileKey(f) !in old(keypointCache)
      ensures !isNew ==> kps == old(keypointCache)[FileKey(f)] && keypointCache == old(keypointCache)
      ensures isNew ==> keypointCache == old(keypointCache)[FileKey(f) := kps]
      ensures isNew ==> kps == ImageBest(estimate, f)
    {
      var id := FileKey(f);
      if id in keypointCache {
        kps, isNew := keypointCache[id], false;
      } else {
        var runs := ScanFallback.KeepRuns([estimate(f, 0), estimate(f, 1), estimate(f, 2)]);
        kps := ScanFallback.BestOfN(runs);
        keypointCache := keypointCache[id := kps];
        isNew := true;
      }
    }

    /** The video loop: deleted videos and videos whose frame has a zero
        side are passed over; the others are estimated twice and the best
        run is used if non-empty. Videos are never cached. */
    method AnalyzeVideos(files: seq<File>, frameSize: File -> (nat, nat),
                         estimate: (File, nat) -> Option<seq<Keypoint>>)
      returns (found: Option<(File, seq<Keypoint>)>)
      ensures found.Some? ==>
                found.value.0 in files && FileKey(found.value.0) !in skipVideos && |found.value.1| > 0
                && frameSize(found.value.0).0 != 0 && frameSize(found.value.0).1 != 0
                && Some(found.value.1) in [estimate(found.value.0, 0), estimate(found.value.0, 1)]
      ensures found.Some? ==>
                exists i :: 0 <= i < |files| && files[i] == found.value.0
                            && found.value.1 == VideoBest(estimate, files[i])
                            && NoVideoBefore(files, i, skipVideos, frameSize, estimate)
      ensures found.None? ==> NoVideoBefore(files, |files|, skipVideos, frameSize, estimate)
    {
      found := None;
      for i := 0 to |files|
        invariant found.None?
        invariant NoVideoBefore(files, i, skipVideos, frameSize, estimate)
      {
        var f := files[i];
        var (w, h) := frameSize(f);
        if FileKey(f) !in skipVideos && w != 0 && h != 0 {
          var kps := EstimateVideo(f, estimate);
          if |kps| > 0 {
            return Some((f, kps));
          }
        }
        NoVideoBeforeNext(files, i, skipVideos, frameSize, estimate);
      }
    }

    /** The two runs on one video frame and the choice between them. */
    static method EstimateVideo(f: File, estimate: (File, nat) -> Option<seq<Keypoint>>) returns (kps: seq<Keypoint>)
      ensures kps == VideoBest(estimate, f)
      ensures |kps| > 0 ==> Some(kps) in [estimate(f, 0), estimate(f, 1)]
    {
      var runs := ScanFallback.KeepRuns([estimate(f, 0), estimate(f, 1)]);
      kps := ScanFallback.BestOfN(runs);
    }

    /** `analyzeFallback` up to the keypoints: images take precedence over
        videos; with neither left after the deletions there is nothing to
        analyse. */
    method Analyze(images: seq<File>, videos: seq<File>, frameSize: File -> (nat, nat),
                   estimate: (File, nat) -> Option<seq<Keypoint>>)
      returns (outcome: Outcome)
      modifies this
      ensures outcome == NothingToAnalyze <==>
                (forall f :: f in images ==> FileKey(f) in old(skipImages))
                && (forall f :: f in videos ==> FileKey(f) in old(skipVideos))
      ensures outcome.Detected? ==> |outcome.kps| > 0
      ensures skipImages == old(skipImages) && skipVideos == old(skipVideos)
      ensures forall id :: id in old(keypointCache) ==> id in keypointCache && keypointCache[id] == old(keypointCache)[id]
      // While an image is left, only the images are analysed: the first
      // image whose cached keypoints are not empty is the one detected.
      ensures (exists f :: f in images && FileKey(f) !in skipImages) ==>
                (outcome.Detected? ==>
                   exists i :: 0 <= i < |images| && images[i] == outcome.source && FileKey(images[i]) !in skipImages
                               && FileKey(images[i]) in keypointCache && keypointCache[FileKey(images[i])] == outcome.kps
                               && EmptyBefore(images, i, skipImages, keypointCache))
                && (outcome == NoPersonDetected <==>
                      forall f :: f in images && FileKey(f) !in skipImages ==>
                        FileKey(f) in keypointCache && keypointCache[FileKey(f)] == [])
      // Otherwise the videos are, leaving the cache alone: the first eligible
      // video whose best run is not empty is the one detected.
      ensures (forall f :: f in images ==> FileKey(f) in skipImages) ==>
                keypointCache == old(keypointCache)
                && (outcome.Detected? ==>
                      exists i :: 0 <= i < |videos| && videos[i] == outcome.source
                                  && VideoEligible(skipVideos, frameSize, videos[i])
                                  && outcome.kps == VideoBest(estimate, videos[i])
                                  && NoVideoBefore(videos, i, skipVideos, frameSize, estimate))
                && (outcome == NoPersonDetected <==>
                      (exists f :: f in videos && FileKey(f) !in skipVideos)
                      && NoVideoBefore(videos, |videos|, skipVideos, frameSize, estimate))
    {
      var hasImg := exists f :: f in images && FileKey(f) !in skipImages;
      var hasVid := exists f :: f in videos && FileKey(f) !in skipVideos;
      if !hasImg && !hasVid {
        return NothingToAnalyze;
      }
      var found: Option<(File, seq<Keypoint>)>;
      if hasImg {
        var estimated;
        found, estimated := AnalyzeImages(images, estimate);
      } else {
        found := AnalyzeVideos(videos, frameSize, estimate);
      }
      outcome := if found.Some? then Detected(found.value.0, found.value.1) else NoPersonDetected;
    }
  }
}
