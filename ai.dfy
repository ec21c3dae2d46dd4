/** The custom decoders of the analyzer (`decode_1001`, `decode_5class`), the label
    maps they read, and the start-up download of the model files that skips files
    already present. */
module Ai {
  import opened Wrappers
  import opened Text
  import opened Sorting

  /** One decoded prediction `(class index, label, probability)`; the pipeline also
      appends entries whose index is `None`. */
  datatype Decoded = Decoded(index: Option<int>, name: string, prob: real)

  // ---------------------------------------------------------------------------
  // Top-k decoding

  /** `order` is what `probs.argsort()` returns: a permutation of the indices of
      `probs` that lists them by ascending probability (ties in any order). */
  predicate IsArgsort(probs: seq<real>, order: seq<nat>)
  {
    && |order| == |probs|
    && (forall k :: 0 <= k < |order| ==> order[k] < |probs|)
    && (forall i :: 0 <= i < |probs| ==> i in order)
    && NoDuplicates(order)
    && (forall j, k :: 0 <= j < k < |order| ==> probs[order[j]] <= probs[order[k]])
  }

  /** Python `s[-top:]` for `top >= 0`: the last `top` elements; since `-0` is `0`,
      `top == 0` keeps them all. */
  function LastN<T>(s: seq<T>, top: nat): (r: seq<T>)
    ensures |r| == if top == 0 || top >= |s| then |s| else top
    ensures r == s[|s| - |r|..]
  {
    if top == 0 || top >= |s| then s else s[|s| - top..]
  }

  /** Python `s[::-1]`. */
  function Reverse<T>(s: seq<T>): (r: seq<T>)
    ensures |r| == |s|
    ensures forall k :: 0 <= k < |s| ==> r[k] == s[|s| - 1 - k]
  {
    seq(|s|, k requires 0 <= k < |s| => s[|s| - 1 - k])
  }

  /** `id_to_label.get(i, "Unknown")`. */
  function LabelOf(labels: map<int, string>, i: int): string
  {
    if i in labels then labels[i] else "Unknown"
  }

  /** The body shared by both decoders: the indices of the `top` largest
      probabilities, largest first, each with its label and probability, wrapped in a
      one-element outer list. */
  function DecodeTop(labels: map<int, string>, probs: seq<real>, order: seq<nat>, top: nat): (r: seq<seq<Decoded>>)
    requires IsArgsort(probs, order)
    ensures |r| == 1
    ensures |r[0]| == if top == 0 || top >= |probs| then |probs| else top
    ensures forall k :: 0 <= k < |r[0]| ==>
              && r[0][k].index.Some? && 0 <= r[0][k].index.value < |probs|
              && r[0][k].prob == probs[r[0][k].index.value]
              && r[0][k].name == LabelOf(labels, r[0][k].index.value)
  {
    var topIndices := Reverse(LastN(order, top));
    [seq(|topIndices|, k requires 0 <= k < |topIndices| =>
       var i := topIndices[k];
       Decoded(Some(i), LabelOf(labels, i), probs[i]))]
  }

  /** The k-th decoded entry is the k-th index of the argsort counted from its end. */
  lemma DecodeTopIndices(labels: map<int, string>, probs: seq<real>, order: seq<nat>, top: nat)
    requires IsArgsort(probs, order)
    ensures var d := DecodeTop(labels, probs, order, top)[0];
            && |d| <= |order|
            && forall k :: 0 <= k < |d| ==> d[k].index == Some(order[|order| - 1 - k]) && d[k].prob == probs[order[|order| - 1 - k]]
  {
  }

  /** The decoded list is a top-k: its probabilities never increase, no index is
      repeated, and every index left out has a probability at most that of every
      index kept. */
  lemma DecodeTopIsTopK(labels: map<int, string>, probs: seq<real>, order: seq<nat>, top: nat)
    requires IsArgsort(probs, order)
    ensures var d := DecodeTop(labels, probs, order, top)[0];
            && (forall j, k :: 0 <= j < k < |d| ==> d[j].prob >= d[k].prob)
            && (forall j, k :: 0 <= j < k < |d| ==> d[j].index != d[k].index)
            && (forall i, k :: 0 <= i < |probs| && 0 <= k < |d| && (forall m :: 0 <= m < |d| ==> d[m].index != Some(i)) ==>
                  probs[i] <= d[k].prob)
  {
    var d := DecodeTop(labels, probs, order, top)[0];
    DecodeTopIndices(labels, probs, order, top);
    TailOfArgsortIsTopK(probs, order, d);
  }

  /** Any list that reads the argsort from its end is a top-k. */
  lemma TailOfArgsortIsTopK(probs: seq<real>, order: seq<nat>, d: seq<Decoded>)
    requires IsArgsort(probs, order) && |d| <= |order|
    requires forall k :: 0 <= k < |d| ==> d[k].index == Some(order[|order| - 1 - k]) && d[k].prob == probs[order[|order| - 1 - k]]
    ensures forall j, k :: 0 <= j < k < |d| ==> d[j].prob >= d[k].prob
    ensures forall j, k :: 0 <= j < k < |d| ==> d[j].index != d[k].index
    ensures forall i, k :: 0 <= i < |probs| && 0 <= k < |d| && (forall m :: 0 <= m < |d| ==> d[m].index != Some(i)) ==>
              probs[i] <= d[k].prob
  {
    var n := |order|;
    forall j, k | 0 <= j < k < |d| ensures d[j].prob >= d[k].prob && d[j].index != d[k].index {
      assert n - 1 - k < n - 1 - j;
    }
    forall i, k | 0 <= i < |probs| && 0 <= k < |d| && (forall m :: 0 <= m < |d| ==> d[m].index != Some(i))
      ensures probs[i] <= d[k].prob
    {
      forall q | n - |d| <= q < n ensures order[q] != i {
        assert d[n - 1 - q].index == Some(order[q]);
      }
      assert i in order;
      var p :| 0 <= p < n && order[p] == i;
      assert p < n - 1 - k;
    }
  }

  /** `decode_1001`: the ImageNet decoder with the extra person class; `top` defaults to 5. */
  function Decode1001(idToLabel: map<int, string>, probs: seq<real>, order: seq<nat>, top: nat := 5): (r: seq<seq<Decoded>>)
    requires IsArgsort(probs, order)
    ensures |r| == 1 && |r[0]| == if top == 0 || top >= |probs| then |probs| else top
  {
    DecodeTop(idToLabel, probs, order, top)
  }

  /** `decode_5class`: the five-class decoder; `top` defaults to 1. */
  function Decode5Class(idToLabel5: map<int, string>, probs: seq<real>, order: seq<nat>, top: nat := 1): (r: seq<seq<Decoded>>)
    requires IsArgsort(probs, order)
    ensures |r| == 1 && |r[0]| == if top == 0 || top >= |probs| then |probs| else top
  {
    DecodeTop(idToLabel5, probs, order, top)
  }

  /** Called with their default `top`, the decoders return at most 5 and at most 1
      entries, and the five-class decoder's single entry is a most probable class. */
  lemma DecoderDefaults(m: map<int, string>, probs: seq<real>, order: seq<nat>)
    requires IsArgsort(probs, order) && |probs| > 0
    ensures |Decode1001(m, probs, order)[0]| == if |probs| < 5 then |probs| else 5
    ensures var d := Decode5Class(m, probs, order)[0];
            |d| == 1 && forall i :: 0 <= i < |probs| ==> probs[i] <= d[0].prob
  {
    var d := Decode5Class(m, probs, order)[0];
    DecodeTopIsTopK(m, probs, order, 1);
    forall i | 0 <= i < |probs| ensures probs[i] <= d[0].prob {
      if d[0].index == Some(i) {
      } else {
        assert forall k :: 0 <= k < |d| ==> d[k].index != Some(i);
      }
    }
  }

  // ---------------------------------------------------------------------------
  // Label maps

  function InvalidLiteral(key: string): Error
  {
    Error("ValueError", key)
  }

  /** Every key reads as an integer. */
  predicate AllKeysParse(items: seq<(string, string)>)
  {
    forall k :: 0 <= k < |items| ==> ParseInt(items[k].0).Some?
  }

  /** `int(k)` applied to each key in order; the first key that does not read as an
      integer raises. */
  function ParseKeys(items: seq<(string, string)>): (r: Result<seq<(int, string)>>)
    ensures r.Success? <==> AllKeysParse(items)
    ensures r.Success? ==> |r.value| == |items|
    ensures r.Success? ==> forall k :: 0 <= k < |items| ==> r.value[k] == (ParseInt(items[k].0).value, items[k].1)
    ensures r.Failure? ==> exists k :: 0 <= k < |items| && ParseInt(items[k].0).None? && r.error == InvalidLiteral(items[k].0)
  {
    if |items| == 0 then Success([])
    else
      match ParseInt(items[0].0)
      case None => Failure(InvalidLiteral(items[0].0))
      case Some(i) =>
        assert forall k :: 0 <= k < |items| - 1 ==> items[1..][k] == items[k + 1];
        match ParseKeys(items[1..])
        case Failure(e) => Failure(e)
        case Success(rest) => Success([(i, items[0].1)] + rest)
  }

  /** Inserting the pairs in order into an empty dict. */
  function BuildMap(pairs: seq<(int, string)>): map<int, string>
  {
    if |pairs| == 0 then map[]
    else BuildMap(pairs[..|pairs| - 1])[pairs[|pairs| - 1].0 := pairs[|pairs| - 1].1]
  }

  /** No later pair carries the same key as pair `k`. */
  predicate NotOverwritten(pairs: seq<(int, string)>, k: nat)
    requires k < |pairs|
  {
    forall k' :: k < k' < |pairs| ==> pairs[k'].0 != pairs[k].0
  }

  /** The dict holds exactly the keys of the pairs, each with the value of its last pair. */
  lemma BuildMapContents(pairs: seq<(int, string)>)
    ensures forall k :: 0 <= k < |pairs| ==> pairs[k].0 in BuildMap(pairs)
    ensures forall i :: i in BuildMap(pairs) ==> exists k :: 0 <= k < |pairs| && pairs[k].0 == i
    ensures forall k :: 0 <= k < |pairs| && NotOverwritten(pairs, k) ==> BuildMap(pairs)[pairs[k].0] == pairs[k].1
  {
    BuildMapKeys(pairs);
    BuildMapValues(pairs);
  }

  lemma {:induction false} BuildMapKeys(pairs: seq<(int, string)>)
    ensures forall k :: 0 <= k < |pairs| ==> pairs[k].0 in BuildMap(pairs)
    ensures forall i :: i in BuildMap(pairs) ==> exists k :: 0 <= k < |pairs| && pairs[k].0 == i
    decreases |pairs|
  {
    if |pairs| > 0 {
      var n := |pairs|;
      var init := pairs[..n - 1];
      BuildMapKeys(init);
      assert BuildMap(pairs) == BuildMap(init)[pairs[n - 1].0 := pairs[n - 1].1];
      forall k | 0 <= k < n ensures pairs[k].0 in BuildMap(pairs) {
        if k < n - 1 {
          assert init[k] == pairs[k];
        }
      }
      forall i | i in BuildMap(pairs) ensures exists k :: 0 <= k < n && pairs[k].0 == i {
        if i != pairs[n - 1].0 {
          var k :| 0 <= k < |init| && init[k].0 == i;
          assert pairs[k].0 == i;
        }
      }
    }
  }

  lemma {:induction false} BuildMapValues(pairs: seq<(int, string)>)
    ensures forall k :: 0 <= k < |pairs| && NotOverwritten(pairs, k) ==>
              pairs[k].0 in BuildMap(pairs) && BuildMap(pairs)[pairs[k].0] == pairs[k].1
    decreases |pairs|
  {
    if |pairs| > 0 {
      var n := |pairs|;
      var init := pairs[..n - 1];
      BuildMapValues(init);
      assert BuildMap(pairs) == BuildMap(init)[pairs[n - 1].0 := pairs[n - 1].1];
      forall k | 0 <= k < n && NotOverwritten(pairs, k)
        ensures pairs[k].0 in BuildMap(pairs) && BuildMap(pairs)[pairs[k].0] == pairs[k].1
      {
        if k < n - 1 {
          assert pairs[n - 1].0 != pairs[k].0;
          assert init[k] == pairs[k];
          assert NotOverwritten(init, k);
        }
      }
    }
  }

  /** `{int(k): v for k, v in class_index.items()}` over the JSON object's items in
      order. */
  function LabelMap(items: seq<(string, string)>): (r: Result<map<int, string>>)
    ensures r.Success? <==> AllKeysParse(items)
  {
    match ParseKeys(items)
    case Failure(e) => Failure(e)
    case Success(pairs) => Success(BuildMap(pairs))
  }

  /** The items of a JSON object written from an int-keyed dict: each key is the
      decimal text of an integer. */
  function IntKeyedItems(ids: seq<int>, names: seq<string>): (items: seq<(string, string)>)
    requires |ids| == |names|
    ensures |items| == |ids|
  {
    seq(|ids|, k requires 0 <= k < |ids| => (IntToString(ids[k]), names[k]))
  }

  lemma ParseIntKeyedItems(ids: seq<int>, names: seq<string>)
    requires |ids| == |names|
    ensures ParseKeys(IntKeyedItems(ids, names)).Success?
    ensures forall k :: 0 <= k < |ids| ==> ParseKeys(IntKeyedItems(ids, names)).value[k] == (ids[k], names[k])
  {
    var items := IntKeyedItems(ids, names);
    forall k | 0 <= k < |ids| ensures ParseInt(items[k].0) == Some(ids[k]) {
      ParseIntOfString(ids[k]);
    }
  }

  /** Keys written as the decimal text of integers always load, and the loaded map
      sends each integer to the label of its last item. */
  lemma LabelMapOfIntKeys(ids: seq<int>, names: seq<string>)
    requires |ids| == |names|
    ensures var r := LabelMap(IntKeyedItems(ids, names));
            && r.Success?
            && (forall k :: 0 <= k < |ids| ==> ids[k] in r.value)
            && (forall i :: i in r.value ==> i in ids)
            && (forall k :: 0 <= k < |ids| && (forall k' :: k < k' < |ids| ==> ids[k'] != ids[k]) ==> r.value[ids[k]] == names[k])
  {
    ParseIntKeyedItems(ids, names);
    var pairs := ParseKeys(IntKeyedItems(ids, names)).value;
    assert LabelMap(IntKeyedItems(ids, names)) == Success(BuildMap(pairs));
    BuildMapOfPairs(pairs, ids, names);
  }

  /** `BuildMap` over the pairs `(ids[k], names[k])`, stated on the two lists. */
  lemma BuildMapOfPairs(pairs: seq<(int, string)>, ids: seq<int>, names: seq<string>)
    requires |pairs| == |ids| == |names|
    requires forall k :: 0 <= k < |ids| ==> pairs[k] == (ids[k], names[k])
    ensures forall k :: 0 <= k < |ids| ==> ids[k] in BuildMap(pairs)
    ensures forall i :: i in BuildMap(pairs) ==> i in ids
    ensures forall k :: 0 <= k < |ids| && (forall k' :: k < k' < |ids| ==> ids[k'] != ids[k]) ==> BuildMap(pairs)[ids[k]] == names[k]
  {
    BuildMapContents(pairs);
    var r := BuildMap(pairs);
    forall i | i in r ensures i in ids {
      var k :| 0 <= k < |pairs| && pairs[k].0 == i;
      assert ids[k] == i;
    }
    forall k | 0 <= k < |ids| && (forall k' :: k < k' < |ids| ==> ids[k'] != ids[k])
      ensures r[ids[k]] == names[k]
    {
      assert NotOverwritten(pairs, k);
    }
  }

  // ---------------------------------------------------------------------------
  // Start-up download of the model files

  /** One download from the bucket to a local path. */
  datatype Fetch = Fetch(bucket: string, key: string, localPath: string)

  /** `os.makedirs('')`: the path it names is empty. */
  function MissingDirectory(): Error
  {
    Error("FileNotFoundError", "")
  }

  /** `os.makedirs(path)` where `path` is a file. */
  function NotADirectory(path: string): Error
  {
    Error("FileExistsError", path)
  }

  /** A snapshot of the local files and directories and of the downloads started. */
  datatype DiskState = DiskState(files: set<string>, dirs: set<string>, fetches: seq<Fetch>)

  /** `download_from_s3` on a snapshot: what it raises and the snapshot it leaves. */
  function Download(st: DiskState, bucket: string, key: string, localPath: string, transferError: Option<Error>)
    : (Option<Error>, DiskState)
  {
    if localPath in st.files || localPath in st.dirs then (None, st)
    else
      var dir := Dirname(localPath);
      if dir == "" then (Some(MissingDirectory()), st)
      else if dir in st.files then (Some(NotADirectory(dir)), st)
      else (transferError, DiskState(st.files + {localPath}, st.dirs + {dir}, st.fetches + [Fetch(bucket, key, localPath)]))
  }

  /** The start-up loop on a snapshot: download each model file in turn and stop at
      the first exception. */
  function DownloadAll(st: DiskState, bucket: string, transferErrors: seq<Option<Error>>,
                       modelFiles: seq<(string, string)>): (Option<Error>, DiskState)
    requires |transferErrors| == |modelFiles|
    decreases |modelFiles|
  {
    if |modelFiles| == 0 then (None, st)
    else
      var step := Download(st, bucket, modelFiles[0].0, modelFiles[0].1, transferErrors[0]);
      if step.0.Some? then step
      else DownloadAll(step.1, bucket, transferErrors[1..], modelFiles[1..])
  }

  /** The k-th download is the one that raises `e` and leaves `fin`: the ones before it
      raised nothing, its file was absent when its turn came, and it raised the
      directory error or the copy's error that the state then called for. */
  predicate FailsAt(st: DiskState, bucket: string, transferErrors: seq<Option<Error>>,
                    modelFiles: seq<(string, string)>, k: nat, e: Option<Error>, fin: DiskState)
    requires |transferErrors| == |modelFiles| && k < |modelFiles|
  {
    var before := DownloadAll(st, bucket, transferErrors[..k], modelFiles[..k]);
    var s := before.1;
    var p := modelFiles[k].1;
    var dir := Dirname(p);
    && before.0.None?
    && p !in s.files && p !in s.dirs
    && (dir == "" ==> e == Some(MissingDirectory()) && fin == s)
    && (dir != "" && dir in s.files ==> e == Some(NotADirectory(dir)) && fin == s)
    && (dir != "" && dir !in s.files ==>
          && e == transferErrors[k]
          && fin == DiskState(s.files + {p}, s.dirs + {dir}, s.fetches + [Fetch(bucket, modelFiles[k].0, p)]))
  }

  /** The start-up loop raises only at the first download that raises, as `FailsAt`
      describes it; when it raises nothing, every model file exists afterwards. */
  lemma {:induction false} DownloadAllOutcome(st: DiskState, bucket: string, transferErrors: seq<Option<Error>>,
                                              modelFiles: seq<(string, string)>)
    requires |transferErrors| == |modelFiles|
    ensures var (e, fin) := DownloadAll(st, bucket, transferErrors, modelFiles);
            && (e.Some? ==> exists k :: 0 <= k < |modelFiles| && FailsAt(st, bucket, transferErrors, modelFiles, k, e, fin))
            && (e.None? ==> forall k :: 0 <= k < |modelFiles| ==> modelFiles[k].1 in fin.files || modelFiles[k].1 in fin.dirs)
    decreases |modelFiles|
  {
    var (e, fin) := DownloadAll(st, bucket, transferErrors, modelFiles);
    if |modelFiles| > 0 {
      var step := Download(st, bucket, modelFiles[0].0, modelFiles[0].1, transferErrors[0]);
      assert DownloadAll(st, bucket, transferErrors[..0], modelFiles[..0]) == (None, st);
      if step.0.Some? {
        assert FailsAt(st, bucket, transferErrors, modelFiles, 0, e, fin);
      } else {
        var ts, ms := transferErrors[1..], modelFiles[1..];
        DownloadAllOutcome(step.1, bucket, ts, ms);
        if e.Some? {
          var k :| 0 <= k < |ms| && FailsAt(step.1, bucket, ts, ms, k, e, fin);
          assert transferErrors[..k + 1][1..] == ts[..k] && modelFiles[..k + 1][1..] == ms[..k];
          assert DownloadAll(st, bucket, transferErrors[..k + 1], modelFiles[..k + 1])
              == DownloadAll(step.1, bucket, ts[..k], ms[..k]);
          assert FailsAt(st, bucket, transferErrors, modelFiles, k + 1, e, fin);
        } else {
          DownloadKeepsPaths(step.1, bucket, ts, ms);
          forall k | 0 <= k < |modelFiles| ensures modelFiles[k].1 in fin.files || modelFiles[k].1 in fin.dirs {
            if k > 0 {
              assert modelFiles[k] == ms[k - 1];
            }
          }
        }
      }
    }
  }

  /** The loop never removes a file or a directory. */
  lemma {:induction false} DownloadKeepsPaths(st: DiskState, bucket: string, transferErrors: seq<Option<Error>>,
                                              modelFiles: seq<(string, string)>)
    requires |transferErrors| == |modelFiles|
    ensures var fin := DownloadAll(st, bucket, transferErrors, modelFiles).1;
            st.files <= fin.files && st.dirs <= fin.dirs
    decreases |modelFiles|
  {
    if |modelFiles| > 0 {
      var step := Download(st, bucket, modelFiles[0].0, modelFiles[0].1, transferErrors[0]);
      if step.0.None? {
        DownloadKeepsPaths(step.1, bucket, transferErrors[1..], modelFiles[1..]);
      }
    }
  }

  /** Model files that are all present already are skipped: nothing is raised and
      nothing changes, whatever the copies would raise. */
  lemma {:induction false} PresentFilesSkipped(st: DiskState, bucket: string, transferErrors: seq<Option<Error>>,
                                               modelFiles: seq<(string, string)>)
    requires |transferErrors| == |modelFiles|
    requires forall k :: 0 <= k < |modelFiles| ==> modelFiles[k].1 in st.files || modelFiles[k].1 in st.dirs
    ensures DownloadAll(st, bucket, transferErrors, modelFiles) == (None, st)
    decreases |modelFiles|
  {
    if |modelFiles| > 0 {
      assert forall k :: 0 <= k < |modelFiles| - 1 ==> modelFiles[1..][k] == modelFiles[k + 1];
      PresentFilesSkipped(st, bucket, transferErrors[1..], modelFiles[1..]);
    }
  }

  /** The local file system as far as the download touches it, and the downloads
      started so far. */
  class LocalFiles {
    var files: set<string>
    var dirs: set<string>
    var fetches: seq<Fetch>

    /** Every started download left its file behind, so no path is downloaded twice. */
    ghost predicate Valid()
      reads this
    {
      && (forall k :: 0 <= k < |fetches| ==> fetches[k].localPath in files)
      && (forall j, k :: 0 <= j < k < |fetches| ==> fetches[j].localPath != fetches[k].localPath)
    }

    constructor (files0: set<string>, dirs0: set<string>)
      ensures Valid() && files == files0 && dirs == dirs0 && fetches == []
    {
      files, dirs, fetches := files0, dirs0, [];
    }

    function State(): DiskState
      reads this
    {
      DiskState(files, dirs, fetches)
    }

    predicate Exists(path: string)
      reads this
    {
      path in files || path in dirs
    }

    /** `download_from_s3`: when the path does not exist, create its directory, open
        the file and copy the object into it; `transferError` is what the copy
        raises, if anything. Returns the exception that escapes, if any. */
    method DownloadFromS3(bucket: string, key: string, localPath: string, transferError: Option<Error>)
      returns (raised: Option<Error>)
      requires Valid()
      modifies this
      ensures Valid()
      ensures old(files) <= files && old(dirs) <= dirs
      ensures raised.None? ==> Exists(localPath)
      ensures old(Exists(localPath)) ==>
                raised.None? && files == old(files) && dirs == old(dirs) && fetches == old(fetches)
      ensures !old(Exists(localPath)) && Dirname(localPath) == "" ==>
                raised == Some(MissingDirectory()) && files == old(files) && dirs == old(dirs) && fetches == old(fetches)
      ensures !old(Exists(localPath)) && Dirname(localPath) != "" && Dirname(localPath) in old(files) ==>
                raised == Some(NotADirectory(Dirname(localPath))) && files == old(files) && dirs == old(dirs) && fetches == old(fetches)
      ensures !old(Exists(localPath)) && Dirname(localPath) != "" && Dirname(localPath) !in old(files) ==>
                && dirs == old(dirs) + {Dirname(localPath)}
                && files == old(files) + {localPath}
                && fetches == old(fetches) + [Fetch(bucket, key, localPath)]
                && raised == transferError
      ensures (raised, State()) == Download(old(State()), bucket, key, localPath, transferError)
    {
      if Exists(localPath) {
        return None;
      }
      var dir := Dirname(localPath);
      if dir == "" {
        return Some(MissingDirectory());
      }
      if dir in files {
        return Some(NotADirectory(dir));
      }
      dirs := dirs + {dir};
      files := files + {localPath};
      fetches := fetches + [Fetch(bucket, key, localPath)];
      raised := transferError;
    }
  }

  /** The `(key, local path)` pairs fetched when the module is imported. */
  const ModelFiles: seq<(string, string)> := [
    ("models/effb0_1001human_model.keras", "models/effb0_1001human_model.keras"),
    ("models/effb0_5class_model.keras", "models/effb0_5class_model.keras"),
    ("models/imagenet_class_index_extended.json", "models/imagenet_class_index_extended.json"),
    ("models/class_index_5class.json", "models/class_index_5class.json")
  ]

  /** Every fetch from position `from` on is of one of the first `upto` model files,
      one whose copy raises nothing. */
  predicate CopiedWithoutError(fetches: seq<Fetch>, from: nat, modelFiles: seq<(string, string)>,
                               transferErrors: seq<Option<Error>>, upto: nat)
    requires |transferErrors| == |modelFiles|
  {
    forall i :: from <= i < |fetches| ==> CopyWithoutError(fetches[i], modelFiles, transferErrors, upto)
  }

  /** `f` fetches one of the first `upto` model files, one whose copy raises nothing. */
  predicate CopyWithoutError(f: Fetch, modelFiles: seq<(string, string)>, transferErrors: seq<Option<Error>>, upto: nat)
    requires |transferErrors| == |modelFiles|
  {
    exists j :: 0 <= j < upto && j < |modelFiles| && f.localPath == modelFiles[j].1 && transferErrors[j].None?
  }

  /** A download step that fetched nothing, or fetched the k-th file whose copy
      raises nothing, keeps `CopiedWithoutError` one file further on. */
  lemma CopiedWithoutErrorStep(fetches: seq<Fetch>, from: nat, modelFiles: seq<(string, string)>,
                               transferErrors: seq<Option<Error>>, k: nat, added: seq<Fetch>)
    requires |transferErrors| == |modelFiles| && k < |modelFiles|
    requires CopiedWithoutError(fetches, from, modelFiles, transferErrors, k)
    requires added == [] || (|added| == 1 && added[0].localPath == modelFiles[k].1 && transferErrors[k].None?)
    ensures CopiedWithoutError(fetches + added, from, modelFiles, transferErrors, k + 1)
  {
    var s := fetches + added;
    forall i | from <= i < |s|
      ensures CopyWithoutError(s[i], modelFiles, transferErrors, k + 1)
    {
      if i < |fetches| {
        assert s[i] == fetches[i] && CopyWithoutError(fetches[i], modelFiles, transferErrors, k);
      } else {
        assert s[i] == added[0];
      }
    }
  }

  /** The import-time loop over `model_files` (the module passes `ModelFiles` as
      `modelFiles`); `transferErrors[k]` is what copying the k-th file would raise.
      The first exception stops the import: it is raised by the download of some
      file k, after every earlier file exists and before any later file is fetched.
      No exception escapes when every copy that runs succeeds and every model
      file's directory can be created; when none escapes, every model file exists
      locally and every copy that ran succeeded. */
  method DownloadModelFiles(fs: LocalFiles, bucket: string, transferErrors: seq<Option<Error>>,
                            modelFiles: seq<(string, string)>)
    returns (raised: Option<Error>)
    requires fs.Valid() && |transferErrors| == |modelFiles|
    modifies fs
    ensures fs.Valid()
    ensures old(fs.files) <= fs.files
    ensures |old(fs.fetches)| <= |fs.fetches| && fs.fetches[..|old(fs.fetches)|] == old(fs.fetches)
    ensures raised.None? ==> forall k :: 0 <= k < |modelFiles| ==> fs.Exists(modelFiles[k].1)
    ensures raised.None? ==> CopiedWithoutError(fs.fetches, |old(fs.fetches)|, modelFiles, transferErrors, |modelFiles|)
    ensures (forall k :: 0 <= k < |modelFiles| ==>
               && transferErrors[k].None? && Dirname(modelFiles[k].1) != ""
               && Dirname(modelFiles[k].1) !in old(fs.files)
               && forall j :: 0 <= j < |modelFiles| ==> Dirname(modelFiles[k].1) != modelFiles[j].1) ==>
              raised.None?
    ensures (raised, fs.State()) == DownloadAll(old(fs.State()), bucket, transferErrors, modelFiles)
  {
    var k := 0;
    while k < |modelFiles|
      invariant 0 <= k <= |modelFiles|
      invariant fs.Valid()
      invariant old(fs.files) <= fs.files && old(fs.dirs) <= fs.dirs
      invariant CopiedWithoutError(fs.fetches, |old(fs.fetches)|, modelFiles, transferErrors, k)
      invariant forall f :: f in fs.files ==> f in old(fs.files) || exists j :: 0 <= j < k && f == modelFiles[j].1
      invariant |old(fs.fetches)| <= |fs.fetches| && fs.fetches[..|old(fs.fetches)|] == old(fs.fetches)
      invariant DownloadAll(old(fs.State()), bucket, transferErrors, modelFiles)
                == DownloadAll(fs.State(), bucket, transferErrors[k..], modelFiles[k..])
    {
      DownloadAllUnfold(fs.State(), bucket, transferErrors, modelFiles, k);
      var (key, localPath) := modelFiles[k];
      ghost var before := fs.fetches;
      ghost var dir := Dirname(localPath);
      ghost var dirFree := dir != "" && dir !in fs.files;
      raised := fs.DownloadFromS3(bucket, key, localPath, transferErrors[k]);
      assert fs.fetches == before || fs.fetches == before + [Fetch(bucket, key, localPath)];
      if raised.Some? {
        assert dirFree ==> raised == transferErrors[k];
        return;
      }
      if fs.fetches == before {
        CopiedWithoutErrorStep(before, |old(fs.fetches)|, modelFiles, transferErrors, k, []);
        assert before + [] == before;
      } else {
        CopiedWithoutErrorStep(before, |old(fs.fetches)|, modelFiles, transferErrors, k, [Fetch(bucket, key, localPath)]);
      }
      k := k + 1;
    }
    assert transferErrors[k..] == [] && modelFiles[k..] == [];
    DownloadAllOutcome(old(fs.State()), bucket, transferErrors, modelFiles);
    raised := None;
  }

  /** The loop from the k-th file on: the k-th download, then the rest unless it raised. */
  lemma DownloadAllUnfold(st: DiskState, bucket: string, transferErrors: seq<Option<Error>>,
                          modelFiles: seq<(string, string)>, k: nat)
    requires |transferErrors| == |modelFiles| && k < |modelFiles|
    ensures DownloadAll(st, bucket, transferErrors[k..], modelFiles[k..])
            == var step := Download(st, bucket, modelFiles[k].0, modelFiles[k].1, transferErrors[k]);
               if step.0.Some? then step else DownloadAll(step.1, bucket, transferErrors[k + 1..], modelFiles[k + 1..])
  {
    assert transferErrors[k..][1..] == transferErrors[k + 1..];
    assert modelFiles[k..][1..] == modelFiles[k + 1..];
  }
}
