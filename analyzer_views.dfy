/** The analyzer's pages: the user's listing with its filters, sort and the 1-based
    queue position of each waiting job (`TopView`), the upload form's validation and
    fan-out (`UploadAnalyzeView.post`), and re-analysis (`ReanalyzeView.post`). */
module AnalyzerViews {
  import opened Wrappers
  import opened Text
  import opened Sorting
  import opened AccountsModels
  import opened AnalyzerModels
  import opened Tasks
  import opened Persistence

  /** `bool(value)` of an optional form or query value: present and non-empty. */
  function Truthy(p: Option<string>): bool
  {
    p.Some? && p.value != ""
  }

  // ---------------------------------------------------------------------------
  // Listing rows

  /** A row of `TransAnalysis` with its image and the image owner's email, as the
      listings read it with `select_related`. */
  datatype Row = Row(analysis: Analysis, image: ImageRecord, ownerEmail: string)

  function IdOf(r: Row): nat
  {
    r.analysis.id
  }

  function UploadTime(r: Row): real
  {
    r.image.uploadedAt as real
  }

  predicate IsPending(r: Row)
  {
    r.analysis.status == Preparing
  }

  /** The `sort` parameter (default `'desc'`) asks for ascending order only when it
      is exactly `'asc'`. */
  function SortAscending(sort: Option<string>): bool
  {
    GetOr(sort, "desc") == "asc"
  }

  /** `.order_by('image__uploaded_at')` or `.order_by('-image__uploaded_at')`. */
  function OrderByUpload(rows: seq<Row>, ascending: bool): seq<Row>
  {
    if ascending then SortAsc(rows, UploadTime) else SortDesc(rows, UploadTime)
  }

  /** The ordering keeps every row and sorts by upload time in the chosen direction. */
  lemma OrderByUploadSorted(rows: seq<Row>, ascending: bool)
    ensures multiset(OrderByUpload(rows, ascending)) == multiset(rows)
    ensures var o := OrderByUpload(rows, ascending);
            forall i, j :: 0 <= i < j < |o| ==>
              if ascending then UploadTime(o[i]) <= UploadTime(o[j]) else UploadTime(o[i]) >= UploadTime(o[j])
  {
    if ascending {
      SortAscSorted(rows, UploadTime);
    } else {
      SortDescSorted(rows, UploadTime);
    }
  }

  // ---------------------------------------------------------------------------
  // TopView

  /** The listing filter: the current user's images, and the status and label when
      they are given (an empty parameter adds nothing). */
  predicate TopFilter(r: Row, userId: nat, status: Option<string>, wantedLabel: Option<string>)
  {
    && r.image.userId == userId
    && (Truthy(status) ==> r.analysis.status.Value() == status.value)
    && (Truthy(wantedLabel) ==> r.analysis.bestLabel == Some(wantedLabel.value))
  }

  /** The analyses of the listing, filtered and ordered. */
  function TopListing(rows: seq<Row>, userId: nat, status: Option<string>, wantedLabel: Option<string>, sort: Option<string>): seq<Row>
  {
    OrderByUpload(Filter(rows, r => TopFilter(r, userId, status, wantedLabel)), SortAscending(sort))
  }

  /** The listing holds exactly the user's rows that match the given filters, each
      as often as in the table, ordered by upload time, ascending only for `'asc'`. */
  lemma TopListingContents(rows: seq<Row>, userId: nat, status: Option<string>, wantedLabel: Option<string>, sort: Option<string>)
    ensures var l := TopListing(rows, userId, status, wantedLabel, sort);
            && multiset(l) == multiset(Filter(rows, r => TopFilter(r, userId, status, wantedLabel)))
            && (forall k :: 0 <= k < |l| ==> l[k].image.userId == userId && TopFilter(l[k], userId, status, wantedLabel))
            && (forall k :: 0 <= k < |rows| && TopFilter(rows[k], userId, status, wantedLabel) ==> rows[k] in l)
            && (forall i, j :: 0 <= i < j < |l| ==>
                  if GetOr(sort, "desc") == "asc" then UploadTime(l[i]) <= UploadTime(l[j]) else UploadTime(l[i]) >= UploadTime(l[j]))
  {
    var p := r => TopFilter(r, userId, status, wantedLabel);
    var f := Filter(rows, p);
    var l := OrderByUpload(f, SortAscending(sort));
    OrderByUploadSorted(f, SortAscending(sort));
    SameElements(f, l);
    FilterMembers(rows, p);
  }

  /** `{aid: idx + 1 for idx, aid in enumerate(waiting_list)}`. */
  function WaitingPositions(ids: seq<nat>): map<nat, nat>
  {
    if |ids| == 0 then map[]
    else WaitingPositions(ids[..|ids| - 1])[ids[|ids| - 1] := |ids|]
  }

  lemma {:induction false} WaitingPositionsOf(ids: seq<nat>)
    requires NoDuplicates(ids)
    ensures forall k :: 0 <= k < |ids| ==> ids[k] in WaitingPositions(ids) && WaitingPositions(ids)[ids[k]] == k + 1
    decreases |ids|
  {
    if |ids| > 0 {
      var init := ids[..|ids| - 1];
      WaitingPositionsOf(init);
    }
  }

  /** All waiting (準備中) analyses of every user, oldest upload first. */
  function PendingQueue(rows: seq<Row>): seq<Row>
  {
    SortAsc(Filter(rows, IsPending), UploadTime)
  }

  function QueueIds(q: seq<Row>): (ids: seq<nat>)
    ensures |ids| == |q| && forall k :: 0 <= k < |q| ==> ids[k] == q[k].analysis.id
  {
    seq(|q|, k requires 0 <= k < |q| => q[k].analysis.id)
  }

  /** The number shown for a row: its position when it is waiting, else `None`. */
  function WaitingNumber(positions: map<nat, nat>, r: Row): Option<nat>
  {
    if r.analysis.status == Preparing then
      if r.analysis.id in positions then Some(positions[r.analysis.id]) else None
    else None
  }

  /** The queue keeps unique ids, holds only waiting rows and every waiting row,
      oldest upload first. */
  lemma PendingQueueFacts(rows: seq<Row>)
    requires KeyUnique(rows, IdOf)
    ensures var q := PendingQueue(rows);
            && KeyUnique(q, IdOf)
            && (forall k :: 0 <= k < |q| ==> IsPending(q[k]))
            && (forall i :: 0 <= i < |rows| && IsPending(rows[i]) ==> rows[i] in q)
            && (forall i, j :: 0 <= i < j < |q| ==> UploadTime(q[i]) <= UploadTime(q[j]))
  {
    var f := Filter(rows, IsPending);
    var q := PendingQueue(rows);
    KeyUniqueFilter(rows, IdOf, IsPending);
    KeyUniquePermutation(f, q, IdOf);
    SameElements(f, q);
    FilterMembers(rows, IsPending);
    SortAscSorted(f, UploadTime);
  }

  /** Numbering a queue with unique ids gives the k-th entry the number k + 1. */
  lemma QueueNumbers(q: seq<Row>)
    requires KeyUnique(q, IdOf)
    requires forall k :: 0 <= k < |q| ==> IsPending(q[k])
    ensures forall k :: 0 <= k < |q| ==> WaitingNumber(WaitingPositions(QueueIds(q)), q[k]) == Some(k + 1)
  {
    var ids := QueueIds(q);
    forall i, j | 0 <= i < j < |ids| ensures ids[i] != ids[j] {
      assert IdOf(q[i]) != IdOf(q[j]);
    }
    WaitingPositionsOf(ids);
  }

  /** With analysis ids unique across the table, the waiting numbers are 1, 2, ...,
      P over all waiting analyses ordered by upload time: the k-th of the queue gets
      k + 1, every waiting row is in the queue, an earlier upload gets a smaller
      number, and a row in any other status gets none. */
  lemma WaitingNumbersAreRanks(rows: seq<Row>)
    requires KeyUnique(rows, IdOf)
    ensures var q := PendingQueue(rows);
            var pos := WaitingPositions(QueueIds(q));
            && (forall k :: 0 <= k < |q| ==> IsPending(q[k]) && WaitingNumber(pos, q[k]) == Some(k + 1))
            && (forall i :: 0 <= i < |rows| && IsPending(rows[i]) ==> rows[i] in q)
            && (forall i :: 0 <= i < |rows| && !IsPending(rows[i]) ==> WaitingNumber(pos, rows[i]).None?)
            && (forall i, j ::
                  (0 <= i < |rows| && 0 <= j < |rows| && IsPending(rows[i]) && IsPending(rows[j]) &&
                   UploadTime(rows[i]) < UploadTime(rows[j])) ==>
                  (WaitingNumber(pos, rows[i]).Some? && WaitingNumber(pos, rows[j]).Some? &&
                   WaitingNumber(pos, rows[i]).value < WaitingNumber(pos, rows[j]).value))
  {
    var q := PendingQueue(rows);
    PendingQueueFacts(rows);
    QueueNumbers(q);
    EarlierUploadSmallerNumber(rows, q, WaitingPositions(QueueIds(q)));
  }

  /** Numbers that follow a queue ordered by upload time order the rows the same way. */
  lemma EarlierUploadSmallerNumber(rows: seq<Row>, q: seq<Row>, pos: map<nat, nat>)
    requires forall k :: 0 <= k < |q| ==> WaitingNumber(pos, q[k]) == Some(k + 1)
    requires forall i :: 0 <= i < |rows| && IsPending(rows[i]) ==> rows[i] in q
    requires forall i, j :: 0 <= i < j < |q| ==> UploadTime(q[i]) <= UploadTime(q[j])
    ensures forall i, j ::
              (0 <= i < |rows| && 0 <= j < |rows| && IsPending(rows[i]) && IsPending(rows[j]) &&
               UploadTime(rows[i]) < UploadTime(rows[j])) ==>
              (WaitingNumber(pos, rows[i]).Some? && WaitingNumber(pos, rows[j]).Some? &&
               WaitingNumber(pos, rows[i]).value < WaitingNumber(pos, rows[j]).value)
  {
    forall i, j | 0 <= i < |rows| && 0 <= j < |rows| && IsPending(rows[i]) && IsPending(rows[j]) &&
                  UploadTime(rows[i]) < UploadTime(rows[j])
      ensures WaitingNumber(pos, rows[i]).Some? && WaitingNumber(pos, rows[j]).Some? &&
              WaitingNumber(pos, rows[i]).value < WaitingNumber(pos, rows[j]).value
    {
      var ki :| 0 <= ki < |q| && q[ki] == rows[i];
      var kj :| 0 <= kj < |q| && q[kj] == rows[j];
    }
  }

  /** The loop over the listing that sets `waiting_number` on each row. */
  method AssignWaitingNumbers(listing: seq<Row>, all: seq<Row>) returns (numbers: seq<Option<nat>>)
    ensures |numbers| == |listing|
    ensures forall k :: 0 <= k < |listing| ==>
              numbers[k] == WaitingNumber(WaitingPositions(QueueIds(PendingQueue(all))), listing[k])
  {
    var waitingPosition := WaitingPositions(QueueIds(PendingQueue(all)));
    numbers := [];
    var k := 0;
    while k < |listing|
      invariant 0 <= k <= |listing| && |numbers| == k
      invariant forall j :: 0 <= j < k ==> numbers[j] == WaitingNumber(waitingPosition, listing[j])
    {
      var analysis := listing[k].analysis;
      if analysis.status == Preparing {
        numbers := numbers + [if analysis.id in waitingPosition then Some(waitingPosition[analysis.id]) else None];
      } else {
        numbers := numbers + [None];
      }
      k := k + 1;
    }
  }

  /** The user's non-null, non-empty labels, in table order. */
  function UserLabels(rows: seq<Row>, userId: nat): (r: seq<string>)
    ensures forall k :: 0 <= k < |r| ==> r[k] != ""
  {
    if |rows| == 0 then []
    else
      var a := rows[0].analysis;
      (if rows[0].image.userId == userId && a.bestLabel.Some? && a.bestLabel.value != "" then [a.bestLabel.value] else [])
      + UserLabels(rows[1..], userId)
  }

  /** The label dropdown: each distinct label of the user's analyses once, null and
      empty labels excluded. */
  function LabelOptions(rows: seq<Row>, userId: nat): seq<string>
  {
    Distinct(UserLabels(rows, userId))
  }

  lemma {:induction false} UserLabelsMembership(rows: seq<Row>, userId: nat, x: string)
    ensures x in UserLabels(rows, userId) <==>
              x != "" && exists k :: 0 <= k < |rows| && rows[k].image.userId == userId && rows[k].analysis.bestLabel == Some(x)
    decreases |rows|
  {
    if |rows| > 0 {
      UserLabelsMembership(rows[1..], userId, x);
      if exists k :: 0 <= k < |rows[1..]| && rows[1..][k].image.userId == userId && rows[1..][k].analysis.bestLabel == Some(x) {
        var k :| 0 <= k < |rows[1..]| && rows[1..][k].image.userId == userId && rows[1..][k].analysis.bestLabel == Some(x);
        assert rows[k + 1] == rows[1..][k];
      }
      if exists k :: 0 <= k < |rows| && rows[k].image.userId == userId && rows[k].analysis.bestLabel == Some(x) {
        var k :| 0 <= k < |rows| && rows[k].image.userId == userId && rows[k].analysis.bestLabel == Some(x);
        if k > 0 {
          assert rows[1..][k - 1] == rows[k];
        }
      }
    }
  }

  /** A label is offered exactly when one of the user's analyses carries it and it
      is not empty; no label is offered twice. */
  lemma LabelOptionsExact(rows: seq<Row>, userId: nat, x: string)
    ensures x in LabelOptions(rows, userId) <==>
              x != "" && exists k :: 0 <= k < |rows| && rows[k].image.userId == userId && rows[k].analysis.bestLabel == Some(x)
    ensures NoDuplicates(LabelOptions(rows, userId))
  {
    UserLabelsMembership(rows, userId, x);
    var u := UserLabels(rows, userId);
    var d := Distinct(u);
    if x in d {
      var i :| 0 <= i < |d| && d[i] == x;
    }
    if x in u {
      var i :| 0 <= i < |u| && u[i] == x;
    }
  }

  /** What `TopView.get_context_data` puts in the page: the listing, each row's
      waiting number and the label options. */
  method TopContext(rows: seq<Row>, userId: nat, status: Option<string>, wantedLabel: Option<string>, sort: Option<string>)
    returns (listing: seq<Row>, numbers: seq<Option<nat>>, labelOptions: seq<string>)
    ensures listing == TopListing(rows, userId, status, wantedLabel, sort)
    ensures |numbers| == |listing|
    ensures forall k :: 0 <= k < |listing| ==>
              numbers[k] == WaitingNumber(WaitingPositions(QueueIds(PendingQueue(rows))), listing[k])
    ensures labelOptions == LabelOptions(rows, userId)
  {
    listing := TopListing(rows, userId, status, wantedLabel, sort);
    numbers := AssignWaitingNumbers(listing, rows);
    labelOptions := LabelOptions(rows, userId);
  }

  // ---------------------------------------------------------------------------
  // UploadAnalyzeView.post

  const MaxUploads: nat := 3
  const DefaultUploadModel: string := "mobilenet_v2"
  const NoImageMessage: string := "Please select at least one image."
  const TooManyMessage: string := "You can upload up to 3 images."
  const NoValidMessage: string := "No valid image files were found."

  /** An uploaded file: its name and whether the image library's integrity check
      accepts it. */
  datatype Upload = Upload(name: string, intact: bool)

  /** The response: the form again with a flash message, the form again with an
      error in its context, or a redirect. */
  datatype UploadOutcome = FormWithMessage(message: string) | FormWithError(error: string) | RedirectTo(target: string)

  predicate IsIntact(u: Upload)
  {
    u.intact
  }

  /** The temporary file written for an upload: a fresh name (`tempStem`) with the
      upload's extension as suffix. */
  function TempPath(tempStem: string, u: Upload): string
  {
    tempStem + Splitext(u.name).1
  }

  /** One save-and-analyze message per valid upload, in upload order; the k-th
      temporary file is named after `tempStems(k)`. */
  function UploadMessages(valid: seq<Upload>, userId: nat, modelName: string, useCategory: bool, tempStems: nat -> string)
    : seq<Message>
  {
    seq(|valid|, k requires 0 <= k < |valid| => SaveAndAnalyze(TempPath(tempStems(k), valid[k]), userId, modelName, useCategory))
  }

  /** The temporary files written for the valid uploads. */
  function TempPaths(valid: seq<Upload>, tempStems: nat -> string): set<string>
  {
    set k | 0 <= k < |valid| :: TempPath(tempStems(k), valid[k])
  }

  /** The loop that keeps the uploads the image library can open. */
  method IntactUploads(uploads: seq<Upload>) returns (validImages: seq<Upload>)
    ensures validImages == Filter(uploads, IsIntact)
  {
    validImages := [];
    var i := 0;
    while i < |uploads|
      invariant 0 <= i <= |uploads|
      invariant validImages == Filter(uploads[..i], IsIntact)
    {
      assert uploads[..i + 1] == uploads[..i] + [uploads[i]];
      FilterSnoc(uploads[..i], uploads[i], IsIntact);
      if uploads[i].intact {
        validImages := validImages + [uploads[i]];
      }
      i := i + 1;
    }
    assert uploads[..i] == uploads;
  }

  lemma UploadMessagesSnoc(valid: seq<Upload>, k: nat, userId: nat, modelName: string, useCategory: bool, tempStems: nat -> string)
    requires k < |valid|
    ensures UploadMessages(valid[..k + 1], userId, modelName, useCategory, tempStems)
         == UploadMessages(valid[..k], userId, modelName, useCategory, tempStems)
            + [SaveAndAnalyze(TempPath(tempStems(k), valid[k]), userId, modelName, useCategory)]
  {
  }

  lemma TempPathsSnoc(valid: seq<Upload>, k: nat, tempStems: nat -> string)
    requires k < |valid|
    ensures TempPaths(valid[..k + 1], tempStems) == TempPaths(valid[..k], tempStems) + {TempPath(tempStems(k), valid[k])}
  {
    var a := TempPaths(valid[..k + 1], tempStems);
    var b := TempPaths(valid[..k], tempStems) + {TempPath(tempStems(k), valid[k])};
    forall x | x in a ensures x in b {
      var j :| 0 <= j < k + 1 && x == TempPath(tempStems(j), valid[..k + 1][j]);
      if j < k {
        assert x == TempPath(tempStems(j), valid[..k][j]);
      }
    }
    forall x | x in b ensures x in a {
      if x != TempPath(tempStems(k), valid[k]) {
        var j :| 0 <= j < k && x == TempPath(tempStems(j), valid[..k][j]);
        assert x == TempPath(tempStems(j), valid[..k + 1][j]);
      }
    }
  }

  /** The loop that writes each valid upload to its temporary file and queues one
      save-and-analyze task for it, in order. */
  method EnqueueUploads(queue: TaskQueue, files: Files, validImages: seq<Upload>, userId: nat, modelName: string,
                        flag: bool, tempStems: nat -> string)
    modifies queue, files
    ensures queue.messages == old(queue.messages) + UploadMessages(validImages, userId, modelName, flag, tempStems)
    ensures files.temp == old(files.temp) + TempPaths(validImages, tempStems)
    ensures files.objects == old(files.objects)
  {
    ghost var messages0, temp0 := queue.messages, files.temp;
    var k := 0;
    while k < |validImages|
      invariant 0 <= k <= |validImages|
      invariant queue.messages == messages0 + UploadMessages(validImages[..k], userId, modelName, flag, tempStems)
      invariant files.temp == temp0 + TempPaths(validImages[..k], tempStems)
      invariant files.objects == old(files.objects)
    {
      var tmpPath := TempPath(tempStems(k), validImages[k]);
      ghost var before := queue.messages;
      files.temp := files.temp + {tmpPath};
      TempPathsSnoc(validImages, k, tempStems);
      queue.Delay(SaveAndAnalyze(tmpPath, userId, modelName, flag));
      UploadMessagesSnoc(validImages, k, userId, modelName, flag, tempStems);
      assert queue.messages == before + [SaveAndAnalyze(tmpPath, userId, modelName, flag)];
      k := k + 1;
    }
    assert validImages[..k] == validImages;
  }

  /** `UploadAnalyzeView.post`: no file, or more than three, is refused with a
      message; corrupt files are skipped; if none is left the form shows an error;
      otherwise each valid file, in order, is written to a temporary file and one
      save-and-analyze task is queued for it with the user, the model (default
      `mobilenet_v2`) and the category flag. Nothing is queued on a refusal. */
  method UploadPost(queue: TaskQueue, files: Files, uploads: seq<Upload>, model: Option<string>, useCategory: Option<string>,
                    userId: nat, tempStems: nat -> string)
    returns (r: UploadOutcome)
    modifies queue, files
    ensures |uploads| == 0 ==> r == FormWithMessage(NoImageMessage)
    ensures |uploads| > MaxUploads ==> r == FormWithMessage(TooManyMessage)
    ensures 1 <= |uploads| <= MaxUploads && |Filter(uploads, IsIntact)| == 0 ==> r == FormWithError(NoValidMessage)
    ensures !r.RedirectTo? ==> queue.messages == old(queue.messages) && files.temp == old(files.temp)
    ensures 1 <= |uploads| <= MaxUploads && |Filter(uploads, IsIntact)| > 0 ==>
              && r == RedirectTo("analyzer:top")
              && queue.messages == old(queue.messages) +
                   UploadMessages(Filter(uploads, IsIntact), userId, GetOr(model, DefaultUploadModel), Truthy(useCategory), tempStems)
              && files.temp == old(files.temp) + TempPaths(Filter(uploads, IsIntact), tempStems)
    ensures files.objects == old(files.objects)
  {
    if |uploads| == 0 {
      return FormWithMessage(NoImageMessage);
    }
    if |uploads| > MaxUploads {
      return FormWithMessage(TooManyMessage);
    }
    var validImages := IntactUploads(uploads);
    if |validImages| == 0 {
      return FormWithError(NoValidMessage);
    }
    EnqueueUploads(queue, files, validImages, userId, GetOr(model, DefaultUploadModel), Truthy(useCategory), tempStems);
    r := RedirectTo("analyzer:top");
  }

  // ---------------------------------------------------------------------------
  // ReanalyzeView.post

  /** The record after re-analysis is requested: the new model and flag, status
      準備中, and the result, timestamps and error cleared. */
  function Reset(a: Analysis, modelName: string, useCategory: bool): Analysis
  {
    a.(modelName := modelName, useCategory := useCategory, status := Preparing,
       bestLabel := None, reliability := None, startedAt := None, endedAt := None,
       errorName := None, errorLog := None)
  }

  /** The reset leaves a clean waiting job on the same image; `top_preds` keeps its
      old value. */
  lemma ResetIsClean(a: Analysis, modelName: string, useCategory: bool)
    ensures var b := Reset(a, modelName, useCategory);
            && IsPendingClean(b)
            && b.id == a.id && b.imageId == a.imageId && b.topPreds == a.topPreds
            && b.modelName == modelName && b.useCategory == useCategory
  {
  }

  /** A re-analysed job that then succeeds carries no error and a full result; one
      that fails carries the new error and no stale label or reliability. */
  lemma ReanalysisThenRun(a: Analysis, modelName: string, useCategory: bool, run: Result<RunOutput>, t0: Time, t1: Time)
    ensures var f := Finished(Started(Reset(a, modelName, useCategory), useCategory, t0), run, t1);
            && (run.Success? ==>
                  f.status == Succeeded && f.errorName.None? && f.errorLog.None? &&
                  f.bestLabel.Some? && f.reliability.Some? && f.topPreds.Some? && f.startedAt == Some(t0) && f.endedAt == Some(t1))
            && (run.Failure? ==>
                  f.status == Failed && f.errorName == Some(run.error.name) && f.errorLog == Some(run.error.trace) &&
                  f.bestLabel.None? && f.reliability.None? && f.endedAt == Some(t1))
  {
  }

  datatype ReanalyzeOutcome = NotFound | ServerError(error: Error) | RedirectTop

  /** The database rejecting a null `model_name`. */
  function NullModelName(): Error
  {
    Error("IntegrityError", "model_name")
  }

  /** `ReanalyzeView.post`: a missing record is a 404; a missing `model_name` makes
      the save fail and changes nothing; otherwise the record is reset and one
      analysis task is queued for the same id with the image's URL (`urlOf`). */
  method ReanalyzePost(db: Database, queue: TaskQueue, analysisId: nat, modelName: Option<string>, useCategory: Option<string>,
                       urlOf: string -> string)
    returns (r: ReanalyzeOutcome)
    requires db.Valid()
    modifies db, queue
    ensures db.Valid() && db.images == old(db.images)
    ensures analysisId !in old(db.analyses) ==>
              r == NotFound && db.analyses == old(db.analyses) && queue.messages == old(queue.messages)
    ensures analysisId in old(db.analyses) && modelName.None? ==>
              r == ServerError(NullModelName()) && db.analyses == old(db.analyses) && queue.messages == old(queue.messages)
    ensures analysisId in old(db.analyses) && modelName.Some? ==>
              var a := old(db.analyses)[analysisId];
              && r == RedirectTop
              && db.analyses == old(db.analyses)[analysisId := Reset(a, modelName.value, Truthy(useCategory))]
              && queue.messages == old(queue.messages) +
                   [Analyze(analysisId, urlOf(old(db.images)[a.imageId].name), modelName.value, Truthy(useCategory))]
  {
    if analysisId !in db.analyses {
      return NotFound;
    }
    var analysis := db.analyses[analysisId];
    if modelName.None? {
      return ServerError(NullModelName());
    }
    // The nine field assignments of the view, as one update.
    analysis := Reset(analysis, modelName.value, Truthy(useCategory));
    db.Save(analysis);
    var imageUrl := urlOf(db.images[analysis.imageId].name);
    queue.Delay(Analyze(analysis.id, imageUrl, analysis.modelName, analysis.useCategory));
    r := RedirectTop;
  }
}
