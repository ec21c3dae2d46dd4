/** The two worker tasks: `analyze_image_task`, which takes one `TransAnalysis` from
    準備中 through 解析中 to 成功 or 失敗, and `save_image_and_analyze_task`, which
    stores an upload, creates its records and queues the analysis. */
module Tasks {
  import opened Wrappers
  import opened Text
  import opened Sorting
  import opened AccountsModels
  import opened AnalyzerModels
  import opened Ai
  import opened Inference
  import opened Persistence

  const HumanCategory: string := "Human (category)"
  const HumanSpecialized: string := "Human (specialized)"
  const InferenceTop: nat := 30
  const HumanTop: nat := 10
  /** Lifetime of the presigned URL handed to the analysis task, in seconds. */
  const SignedUrlLifetime: nat := 60 * 60 * 24

  /** Fetching the image at a URL and turning it into the network's input
      (`requests.get`, `raise_for_status`, `load_img`, `img_to_array`, `expand_dims`). */
  type FetchImage = string -> Result<Pixels>

  // ---------------------------------------------------------------------------
  // The result list

  /** The ranking entries appended after the raw decoded list: `(None, "<rank> <category>", score)`
      with ranks counted from 1. */
  function RankingEntries(ranking: seq<(string, real)>): seq<Decoded>
  {
    seq(|ranking|, k requires 0 <= k < |ranking| => Decoded(None, NatToString(k + 1) + " " + ranking[k].0, ranking[k].1))
  }

  /** Each ranking entry's label is its 1-based rank, a space and the category: the
      rank reads back from the text before the first space, the category follows it,
      and the score is carried unchanged. */
  lemma RankingEntryLabel(ranking: seq<(string, real)>, k: nat)
    requires k < |ranking|
    ensures var e := RankingEntries(ranking)[k];
            var j := |NatToString(k + 1)|;
            && e.index.None? && e.prob == ranking[k].1
            && Find(e.name, " ", 0) == Some(j)
            && ParseInt(e.name[..j]) == Some(k + 1)
            && e.name[j + 1..] == ranking[k].0
  {
    NumberThenSeparator(k + 1, ' ', ranking[k].0);
    assert RankingEntries(ranking)[k].name == NatToString(k + 1) + [' '] + ranking[k].0;
    assert " " == [' '];
  }

  /** What the try block computes once the record is saved as 解析中: the final
      decoded list, best label and best score. */
  datatype RunOutput = RunOutput(decoded: seq<Decoded>, bestLabel: string, bestScore: real)

  /** Fetch the image, run the chosen model, append the ranking entries and, when
      the best label is the human category, run the specialized model and append its
      score; a failure is the first exception raised. */
  function Pipeline(fetch: FetchImage, infer: Infer, cats: seq<Category>, fullPath: string, modelName: string, useCategory: bool)
    : Result<RunOutput>
  {
    match fetch(fullPath)
    case Failure(e) => Failure(e)
    case Success(x) =>
      match Inference.Inference(infer, cats, modelName, x, useCategory, InferenceTop)
      case Failure(e) => Failure(e)
      case Success(out) =>
        var decoded := out.decoded + RankingEntries(out.ranking);
        if out.bestLabel != HumanCategory then
          Success(RunOutput(decoded, out.bestLabel, out.bestScore))
        else
          match Inference.Inference(infer, cats, HumanModel, x, true, HumanTop)
          case Failure(e) => Failure(e)
          case Success(h) =>
            Success(RunOutput(decoded + [Decoded(None, HumanSpecialized, h.bestScore)], out.bestLabel,
                              if h.bestScore > out.bestScore then h.bestScore else out.bestScore))
  }

  /** On success the list starts with the raw decoded entries followed by the
      ranking entries; the best label is the first pass's; the specialized entry is
      appended exactly when that label is the human category, and then the best
      score becomes the larger of the two scores, so it is never lowered. */
  lemma PipelineResult(fetch: FetchImage, infer: Infer, cats: seq<Category>, fullPath: string, modelName: string, useCategory: bool)
    requires Pipeline(fetch, infer, cats, fullPath, modelName, useCategory).Success?
    ensures var x := fetch(fullPath).value;
            var out := Inference.Inference(infer, cats, modelName, x, useCategory, InferenceTop).value;
            var p := Pipeline(fetch, infer, cats, fullPath, modelName, useCategory).value;
            var n := |out.decoded| + |out.ranking|;
            && n <= |p.decoded|
            && p.decoded[..n] == out.decoded + RankingEntries(out.ranking)
            && p.bestLabel == out.bestLabel
            && p.bestScore >= out.bestScore
            && (out.bestLabel != HumanCategory ==> p.decoded == out.decoded + RankingEntries(out.ranking) && p.bestScore == out.bestScore)
            && (out.bestLabel == HumanCategory ==>
                  var h := Inference.Inference(infer, cats, HumanModel, x, true, HumanTop).value;
                  && |p.decoded| == n + 1
                  && p.decoded[n] == Decoded(None, HumanSpecialized, h.bestScore)
                  && p.bestScore == (if h.bestScore > out.bestScore then h.bestScore else out.bestScore))
  {
    var x := fetch(fullPath).value;
    var out := Inference.Inference(infer, cats, modelName, x, useCategory, InferenceTop).value;
    var p := Pipeline(fetch, infer, cats, fullPath, modelName, useCategory).value;
    var n := |out.decoded| + |out.ranking|;
    if out.bestLabel == HumanCategory {
      assert p.decoded[..n] == out.decoded + RankingEntries(out.ranking);
    }
  }

  /** `top_preds`: every entry of the final list, in order, as `{label, prob}`. */
  function TopPreds(decoded: seq<Decoded>): (r: seq<Pred>)
    ensures |r| == |decoded|
    ensures forall k :: 0 <= k < |decoded| ==> r[k].name == decoded[k].name && r[k].prob == decoded[k].prob
  {
    seq(|decoded|, k requires 0 <= k < |decoded| => Pred(decoded[k].name, decoded[k].prob))
  }

  /** The record after the first save of the try block. */
  function Started(a: Analysis, useCategory: bool, t0: Time): Analysis
  {
    a.(status := Analyzing, startedAt := Some(t0), useCategory := useCategory)
  }

  /** The record `analyze_image_task` leaves behind: the result on success, the exception on
      failure, and `ended_at` in both cases. */
  function Finished(a: Analysis, run: Result<RunOutput>, t1: Time): Analysis
  {
    match run
    case Success(o) =>
      a.(topPreds := Some(TopPreds(o.decoded)), bestLabel := Some(o.bestLabel),
         reliability := Some(o.bestScore * 100.0), status := Succeeded, endedAt := Some(t1))
    case Failure(e) =>
      a.(status := Failed, errorName := Some(e.name), errorLog := Some(e.trace), endedAt := Some(t1))
  }

  /** A finished job is 成功 or 失敗, keeps its identity and model, carries both
      timestamps, holds the result on success and the exception on failure; what
      the other path would write is left as it was, including an earlier error on a
      job that now succeeds. */
  lemma FinishedRecord(a: Analysis, useCategory: bool, run: Result<RunOutput>, t0: Time, t1: Time)
    ensures var f := Finished(Started(a, useCategory, t0), run, t1);
            && f.id == a.id && f.imageId == a.imageId && f.modelName == a.modelName
            && f.useCategory == useCategory
            && f.startedAt == Some(t0) && f.endedAt == Some(t1)
            && (f.status == Succeeded || f.status == Failed)
            && (run.Success? ==>
                  && f.status == Succeeded
                  && f.bestLabel == Some(run.value.bestLabel)
                  && f.reliability == Some(run.value.bestScore * 100.0)
                  && f.topPreds == Some(TopPreds(run.value.decoded))
                  && f.errorName == a.errorName && f.errorLog == a.errorLog)
            && (run.Failure? ==>
                  && f.status == Failed
                  && f.errorName == Some(run.error.name) && f.errorLog == Some(run.error.trace)
                  && f.bestLabel == a.bestLabel && f.reliability == a.reliability && f.topPreds == a.topPreds)
  {
  }

  /** An exception whose class name is longer than the `error_name` column gives a
      failed record that does not fit its columns. */
  lemma LongErrorNameOverflows(a: Analysis, useCategory: bool, e: Error, t0: Time, t1: Time)
    requires |e.name| > ErrorNameMaxLength
    ensures var f := Finished(Started(a, useCategory, t0), Failure(e), t1);
            f.status == Failed && !FitsColumns(f)
  {
  }

  // ---------------------------------------------------------------------------
  // analyze_image_task

  /** How `analyze_image_task` ends: normally, or with an exception that escapes it. */
  datatype TaskOutcome = Completed | Crashed(error: Error)

  /** The `finally` block reading `ended_at` of `None` when the record was not found. */
  function NoneEndedAt(): Error
  {
    Error("AttributeError", "ended_at")
  }

  lemma RankingEntriesSnoc(ranking: seq<(string, real)>, k: nat)
    requires k < |ranking|
    ensures RankingEntries(ranking[..k + 1])
         == RankingEntries(ranking[..k]) + [Decoded(None, NatToString(k + 1) + " " + ranking[k].0, ranking[k].1)]
  {
  }

  /** The steps of the try block after the record is saved as 解析中. */
  method RunPipeline(fetch: FetchImage, infer: Infer, cats: seq<Category>, fullPath: string, modelName: string, useCategory: bool)
    returns (r: Result<RunOutput>)
    ensures r == Pipeline(fetch, infer, cats, fullPath, modelName, useCategory)
  {
    var img := fetch(fullPath);
    if img.Failure? {
      return Failure(img.error);
    }
    var x := img.value;
    var first := RunModelInference(infer, cats, modelName, x, useCategory, InferenceTop);
    if first.Failure? {
      return Failure(first.error);
    }
    var decoded := first.value.decoded;
    var bestLabel := first.value.bestLabel;
    var bestScore := first.value.bestScore;
    var ranking := first.value.ranking;
    var k := 0;
    while k < |ranking|
      invariant 0 <= k <= |ranking|
      invariant decoded == first.value.decoded + RankingEntries(ranking[..k])
    {
      RankingEntriesSnoc(ranking, k);
      decoded := decoded + [Decoded(None, NatToString(k + 1) + " " + ranking[k].0, ranking[k].1)];
      k := k + 1;
    }
    assert ranking[..k] == ranking;
    if bestLabel == HumanCategory {
      var human := RunModelInference(infer, cats, HumanModel, x, true, HumanTop);
      if human.Failure? {
        return Failure(human.error);
      }
      var humanScore := human.value.bestScore;
      decoded := decoded + [Decoded(None, HumanSpecialized, humanScore)];
      if humanScore > bestScore {
        bestScore := humanScore;
      }
    }
    r := Success(RunOutput(decoded, bestLabel, bestScore));
  }

  /** `analyze_image_task`: a missing record makes the `finally` block crash and
      changes nothing; otherwise the record is saved as 解析中 with `started_at`
      (`t0`) and `use_category`, then as 成功 with the result or 失敗 with the
      exception, and finally with `ended_at` (`t1`). */
  method AnalyzeImageTask(db: Database, analysisId: nat, fullPath: string, modelName: string, useCategory: bool,
                          fetch: FetchImage, infer: Infer, cats: seq<Category>, t0: Time, t1: Time)
    returns (outcome: TaskOutcome)
    requires db.Valid()
    modifies db
    ensures db.Valid()
    ensures db.images == old(db.images)
    ensures analysisId !in old(db.analyses) ==> outcome == Crashed(NoneEndedAt()) && db.analyses == old(db.analyses)
    ensures analysisId in old(db.analyses) ==>
              && outcome == Completed
              && db.analyses == old(db.analyses)[analysisId :=
                   Finished(Started(old(db.analyses)[analysisId], useCategory, t0),
                            Pipeline(fetch, infer, cats, fullPath, modelName, useCategory), t1)]
  {
    if analysisId !in db.analyses {
      return Crashed(NoneEndedAt());
    }
    var analysis := db.analyses[analysisId];
    analysis := analysis.(status := Analyzing);
    analysis := analysis.(startedAt := Some(t0));
    analysis := analysis.(useCategory := useCategory);
    db.Save(analysis);
    var run := RunPipeline(fetch, infer, cats, fullPath, modelName, useCategory);
    SaveResult(db, analysis, run, t1);
    outcome := Completed;
  }

  /** The rest of `analyze_image_task` once the pipeline has returned or raised: the `try`
      block's or the `except` block's save, then the `finally` block's. */
  method SaveResult(db: Database, analysis: Analysis, run: Result<RunOutput>, t1: Time)
    requires db.Valid() && analysis.id in db.analyses && analysis.imageId in db.images
    modifies db
    ensures db.Valid()
    ensures db.images == old(db.images)
    ensures db.analyses == old(db.analyses)[analysis.id := Finished(analysis, run, t1)]
  {
    var a := analysis;
    match run {
      case Success(o) =>
        a := a.(topPreds := Some(TopPreds(o.decoded)));
        a := a.(bestLabel := Some(o.bestLabel));
        a := a.(reliability := Some(o.bestScore * 100.0));
        a := a.(status := Succeeded);
      case Failure(e) =>
        a := a.(status := Failed);
        a := a.(errorName := Some(e.name));
        a := a.(errorLog := Some(e.trace));
        db.Save(a);
    }
    a := a.(endedAt := Some(t1));
    db.Save(a);
  }

  // ---------------------------------------------------------------------------
  // save_image_and_analyze_task

  /** `slugify(base)[:40] or "image"`. */
  function SafeBase(base: string, slugify: string -> string): (s: string)
    ensures 1 <= |s| <= 40
    ensures s == "image" <==> Take(slugify(base), 40) == "" || Take(slugify(base), 40) == "image"
    ensures s != "image" ==> |s| <= |slugify(base)| && s == slugify(base)[..|s|]
    ensures s != "image" ==> |s| == if |slugify(base)| < 40 then |slugify(base)| else 40
  {
    var t := Take(slugify(base), 40);
    if t == "" then "image" else t
  }

  /** The stored file name: the safe base, a dash, the first six characters of the
      random hex id and the lower-cased extension of the temporary file. */
  function UploadFilename(tempPath: string, slugify: string -> string, uuidHex: string): string
    requires |uuidHex| >= 6
  {
    var (base, ext) := Splitext(Basename(tempPath));
    SafeBase(base, slugify) + "-" + uuidHex[..6] + Lower(ext)
  }

  /** The steps that build the stored file name. */
  method MakeFilename(tempPath: string, slugify: string -> string, uuidHex: string) returns (filename: string)
    requires |uuidHex| >= 6
    ensures filename == UploadFilename(tempPath, slugify, uuidHex)
  {
    var (base, ext) := Splitext(Basename(tempPath));
    var safe := Take(slugify(base), 40);
    if safe == "" {
      safe := "image";
    }
    var unique := uuidHex[..6];
    filename := safe + "-" + unique + Lower(ext);
  }

  /** The file name splits back into a non-empty base of at most 40 characters, the
      six hex characters and the lower-cased extension, which is empty or starts
      with a dot. */
  lemma UploadFilenameParts(tempPath: string, slugify: string -> string, uuidHex: string)
    requires |uuidHex| >= 6
    ensures var name := UploadFilename(tempPath, slugify, uuidHex);
            var ext := Splitext(Basename(tempPath)).1;
            var s := SafeBase(Splitext(Basename(tempPath)).0, slugify);
            && |name| == |s| + 7 + |ext|
            && 1 <= |s| <= 40
            && name[..|s|] == s && name[|s|] == '-'
            && name[|s| + 1..|s| + 7] == uuidHex[..6]
            && name[|s| + 7..] == Lower(ext)
            && (ext == "" || name[|s| + 7] == '.')
  {
    var (base, ext) := Splitext(Basename(tempPath));
    SplitextFacts(Basename(tempPath));
    NameParts(SafeBase(base, slugify), uuidHex[..6], ext);
  }

  /** Where the three parts of `s + "-" + hex + ext.lower()` lie. */
  lemma NameParts(s: string, hex: string, ext: string)
    requires |hex| == 6
    ensures var name := s + "-" + hex + Lower(ext);
            && |name| == |s| + 7 + |ext|
            && name[..|s|] == s && name[|s|] == '-'
            && name[|s| + 1..|s| + 7] == hex
            && name[|s| + 7..] == Lower(ext)
            && (ext != "" && ext[0] == '.' ==> name[|s| + 7] == '.')
  {
    var name := s + "-" + hex + Lower(ext);
    assert name[|s| + 7..] == Lower(ext);
  }

  function MissingTempFile(path: string): Error
  {
    Error("FileNotFoundError", path)
  }

  /** `save_image_and_analyze_task`: store the temporary file under `uploads/` (the
      storage returns the key it used, `storedName`), delete the temporary file,
      create the image and its 準備中 analysis, presign the key for a day and queue
      the analysis with the new id. A missing temporary file raises before anything
      changes; so does a failed upload (`storeError`, what `s3_storage.save` raises),
      which leaves the temporary file in place. */
  method SaveImageAndAnalyzeTask(db: Database, files: Files, queue: TaskQueue,
                                 tempPath: string, userId: nat, modelName: string, useCategory: bool,
                                 slugify: string -> string, uuidHex: string, storedName: string -> string,
                                 presign: (string, nat) -> string, now: Time, storeError: Option<Error>)
    returns (r: Result<nat>)
    requires db.Valid() && |uuidHex| >= 6
    modifies db, files, queue
    ensures db.Valid()
    ensures tempPath !in old(files.temp) ==>
              && r == Failure(MissingTempFile(tempPath))
              && db.images == old(db.images) && db.analyses == old(db.analyses)
              && files.temp == old(files.temp) && files.objects == old(files.objects)
              && queue.messages == old(queue.messages)
    ensures tempPath in old(files.temp) && storeError.Some? ==>
              && r == Failure(storeError.value)
              && db.images == old(db.images) && db.analyses == old(db.analyses)
              && files.temp == old(files.temp) && files.objects == old(files.objects)
              && queue.messages == old(queue.messages)
    ensures tempPath in old(files.temp) && storeError.None? ==>
              var key := storedName("uploads/" + UploadFilename(tempPath, slugify, uuidHex));
              var imageId := old(db.nextImageId);
              var analysisId := old(db.nextAnalysisId);
              && r == Success(analysisId)
              && files.objects == old(files.objects) + {key}
              && files.temp == old(files.temp) - {tempPath}
              && db.images == old(db.images)[imageId := ImageRecord(imageId, userId, key, now)]
              && db.analyses == old(db.analyses)[analysisId := NewAnalysis(analysisId, imageId, modelName)]
              && queue.messages == old(queue.messages) + [Analyze(analysisId, presign(key, SignedUrlLifetime), modelName, useCategory)]
  {
    var filename := MakeFilename(tempPath, slugify, uuidHex);
    if tempPath !in files.temp {
      return Failure(MissingTempFile(tempPath));
    }
    if storeError.Some? {
      return Failure(storeError.value);
    }
    var key := storedName("uploads/" + filename);
    files.objects := files.objects + {key};
    files.temp := files.temp - {tempPath};
    var image := db.CreateImage(userId, key, now);
    var analysis := db.CreateAnalysis(image.id, modelName);
    var signedUrl := presign(key, SignedUrlLifetime);
    queue.Delay(Analyze(analysis.id, signedUrl, modelName, useCategory));
    r := Success(analysis.id);
  }
}
