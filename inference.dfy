/** `run_model_inference`: pick the network from the registry, decode its prediction
    and, when categories are used, add each decoded probability to the categories
    whose keyword list holds the lower-cased label and rank the categories. */
module Inference {
  import opened Wrappers
  import opened Text
  import opened Sorting
  import opened Ai

  // ---------------------------------------------------------------------------
  // The model registry (`MODEL_MAP`)

  datatype Loader = EfficientNetB0 | MobileNetV2 | ResNet50 | LoadEffb0Custom | Load5ClassModel
  datatype Preprocessor = EfficientNetPreprocess | MobileNetV2Preprocess | ResNet50Preprocess
  datatype DecoderKind = EfficientNetDecode | MobileNetV2Decode | ResNet50Decode | Decode1001Decoder | Decode5ClassDecoder

  /** A registry entry: how to build the network, how to preprocess its input and
      how to decode its output. */
  datatype Entry = Entry(loader: Loader, preprocess: Preprocessor, decoder: DecoderKind)

  const DefaultModel: string := "efficientnet_b0"
  const HumanModel: string := "effb0_1001human"

  const ModelMap: map<string, Entry> := map[
    "efficientnet_b0" := Entry(EfficientNetB0, EfficientNetPreprocess, EfficientNetDecode),
    "mobilenet_v2" := Entry(MobileNetV2, MobileNetV2Preprocess, MobileNetV2Decode),
    "resnet50" := Entry(ResNet50, ResNet50Preprocess, ResNet50Decode),
    "effb0_1001human" := Entry(LoadEffb0Custom, EfficientNetPreprocess, Decode1001Decoder),
    "effb0_5class" := Entry(Load5ClassModel, EfficientNetPreprocess, Decode5ClassDecoder)
  ]

  /** `MODEL_MAP.get(model_name, MODEL_MAP['efficientnet_b0'])`. */
  function Resolve(modelName: string): (e: Entry)
    ensures e in ModelMap.Values
    ensures modelName in ModelMap ==> e == ModelMap[modelName]
  {
    if modelName in ModelMap then ModelMap[modelName] else ModelMap[DefaultModel]
  }

  /** A name outside the registry falls back to EfficientNetB0 with its own
      preprocessing and decoding. */
  lemma ResolveUnknown(modelName: string)
    requires modelName !in {"efficientnet_b0", "mobilenet_v2", "resnet50", "effb0_1001human", "effb0_5class"}
    ensures Resolve(modelName) == Entry(EfficientNetB0, EfficientNetPreprocess, EfficientNetDecode)
  {
    assert modelName !in ModelMap;
  }

  // ---------------------------------------------------------------------------
  // Categories

  /** The input image as the network sees it (the array built from the fetched image). */
  type Pixels = seq<real>

  /** Building the registry entry's network, preprocessing `x`, predicting and
      decoding the `top` best classes (`decode(preds, top=top)[0]`); a failure is the
      exception one of these steps raises. */
  type Infer = (Entry, Pixels, nat) -> Result<seq<Decoded>>

  /** One entry of `CATEGORY_MAP`: a category name and its lower-cased keywords. */
  datatype Category = Category(name: string, keywords: seq<string>)

  /** The score of one category: the probabilities of the decoded entries whose
      lower-cased label is one of its keywords, added in decoding order. */
  function CategoryScore(decoded: seq<Decoded>, keywords: seq<string>): real
  {
    if |decoded| == 0 then 0.0
    else
      var e := decoded[|decoded| - 1];
      CategoryScore(decoded[..|decoded| - 1], keywords) + (if Lower(e.name) in keywords then e.prob else 0.0)
  }

  /** `scores.items()` after the loops: every category in map order with its score. */
  function Scores(decoded: seq<Decoded>, cats: seq<Category>): seq<(string, real)>
  {
    seq(|cats|, c requires 0 <= c < |cats| => (cats[c].name, CategoryScore(decoded, cats[c].keywords)))
  }

  function ScoreOf(p: (string, real)): real
  {
    p.1
  }

  /** `sorted(scores.items(), key=lambda x: x[1], reverse=True)`. */
  function Rank(scores: seq<(string, real)>): seq<(string, real)>
  {
    SortDesc(scores, ScoreOf)
  }

  /** The sum of the probabilities of a list of decoded entries. */
  function TotalProb(decoded: seq<Decoded>): real
  {
    if |decoded| == 0 then 0.0 else TotalProb(decoded[..|decoded| - 1]) + decoded[|decoded| - 1].prob
  }

  /** A category's score is the total probability of the decoded entries that match
      one of its keywords. */
  lemma {:induction false} CategoryScoreIsMatchedTotal(decoded: seq<Decoded>, keywords: seq<string>)
    ensures CategoryScore(decoded, keywords) == TotalProb(Filter(decoded, (e: Decoded) => Lower(e.name) in keywords))
    decreases |decoded|
  {
    if |decoded| > 0 {
      var n := |decoded|;
      var p := (e: Decoded) => Lower(e.name) in keywords;
      CategoryScoreIsMatchedTotal(decoded[..n - 1], keywords);
      assert decoded == decoded[..n - 1] + [decoded[n - 1]];
      FilterAppend(decoded[..n - 1], [decoded[n - 1]], p);
      TotalProbAppend(Filter(decoded[..n - 1], p), Filter([decoded[n - 1]], p));
    }
  }

  lemma {:induction false} TotalProbAppend(a: seq<Decoded>, b: seq<Decoded>)
    ensures TotalProb(a + b) == TotalProb(a) + TotalProb(b)
    decreases |b|
  {
    if |b| == 0 {
      assert a + b == a;
    } else {
      assert (a + b)[..|a + b| - 1] == a + b[..|b| - 1];
      TotalProbAppend(a, b[..|b| - 1]);
    }
  }

  /** With non-negative probabilities every category score lies between 0 and the
      total probability of the decoded list. */
  lemma {:induction false} CategoryScoreBounds(decoded: seq<Decoded>, keywords: seq<string>)
    requires forall k :: 0 <= k < |decoded| ==> decoded[k].prob >= 0.0
    ensures 0.0 <= CategoryScore(decoded, keywords) <= TotalProb(decoded)
    decreases |decoded|
  {
    if |decoded| > 0 {
      CategoryScoreBounds(decoded[..|decoded| - 1], keywords);
    }
  }

  /** The ranking lists every category exactly once with its score, in descending
      score order, categories with equal scores staying in map order. */
  lemma RankIsStableDescending(decoded: seq<Decoded>, cats: seq<Category>, v: real)
    ensures multiset(Rank(Scores(decoded, cats))) == multiset(Scores(decoded, cats))
    ensures |Rank(Scores(decoded, cats))| == |cats|
    ensures Descending(Rank(Scores(decoded, cats)), ScoreOf)
    ensures WithKey(Rank(Scores(decoded, cats)), ScoreOf, v) == WithKey(Scores(decoded, cats), ScoreOf, v)
  {
    var s := Scores(decoded, cats);
    SortDescSorted(s, ScoreOf);
    SortDescStable(s, ScoreOf, v);
    assert |multiset(Rank(s))| == |multiset(s)|;
  }

  /** The best category is the first category, in map order, whose score is the
      highest. */
  lemma BestCategoryIsFirstMaximum(decoded: seq<Decoded>, cats: seq<Category>, k: nat)
    requires k < |cats|
    requires forall c :: 0 <= c < |cats| ==> ScoreOf(Scores(decoded, cats)[c]) <= ScoreOf(Scores(decoded, cats)[k])
    requires forall c :: 0 <= c < k ==> ScoreOf(Scores(decoded, cats)[c]) < ScoreOf(Scores(decoded, cats)[k])
    ensures Rank(Scores(decoded, cats))[0] == (cats[k].name, CategoryScore(decoded, cats[k].keywords))
  {
    var s := Scores(decoded, cats);
    RankIsStableDescending(decoded, cats, ScoreOf(s[k]));
    FirstMaximumLeads(s, Rank(s), ScoreOf, k);
  }

  // ---------------------------------------------------------------------------
  // run_model_inference

  /** The four results of `run_model_inference`. */
  datatype InferenceOut = InferenceOut(decoded: seq<Decoded>, bestLabel: string, bestScore: real, ranking: seq<(string, real)>)

  /** What `run_model_inference` returns or raises. */
  function Inference(infer: Infer, cats: seq<Category>, modelName: string, x: Pixels, useCategory: bool, top: nat): Result<InferenceOut>
  {
    match infer(Resolve(modelName), x, top)
    case Failure(e) => Failure(e)
    case Success(decoded) =>
      if |decoded| == 0 then Failure(IndexOutOfRange)
      else if !useCategory then Success(InferenceOut(decoded, decoded[0].name, decoded[0].prob, []))
      else
        var ranking := Rank(Scores(decoded, cats));
        if |ranking| == 0 then Failure(IndexOutOfRange)
        else Success(InferenceOut(decoded, ranking[0].0, ranking[0].1, ranking))
  }

  /** Without categories the best label and score are those of the first decoded
      entry and the ranking is empty; with categories they are the first ranked
      category, and an empty category map raises `IndexError`. */
  lemma InferenceResult(infer: Infer, cats: seq<Category>, modelName: string, x: Pixels, useCategory: bool, top: nat)
    requires infer(Resolve(modelName), x, top).Success?
    ensures var d := infer(Resolve(modelName), x, top).value;
            var r := Inference(infer, cats, modelName, x, useCategory, top);
            && (|d| == 0 ==> r == Failure(IndexOutOfRange))
            && (|d| > 0 && !useCategory ==>
                  && r.Success? && r.value.decoded == d
                  && r.value.bestLabel == d[0].name && r.value.bestScore == d[0].prob && r.value.ranking == [])
            && (|d| > 0 && useCategory && |cats| == 0 ==> r == Failure(IndexOutOfRange))
            && (|d| > 0 && useCategory && |cats| > 0 ==>
                  && r.Success? && r.value.decoded == d && |r.value.ranking| == |cats|
                  && r.value.ranking == Rank(Scores(d, cats))
                  && r.value.bestLabel == r.value.ranking[0].0 && r.value.bestScore == r.value.ranking[0].1
                  && (forall c :: 0 <= c < |cats| ==> CategoryScore(d, cats[c].keywords) <= r.value.bestScore)
                  && (exists c :: 0 <= c < |cats| && r.value.bestScore == CategoryScore(d, cats[c].keywords)))
  {
    var d := infer(Resolve(modelName), x, top).value;
    if |d| > 0 && useCategory {
      var s := Scores(d, cats);
      var r := Rank(s);
      RankIsStableDescending(d, cats, 0.0);
      if |cats| > 0 {
        forall c | 0 <= c < |cats| ensures CategoryScore(d, cats[c].keywords) <= ScoreOf(r[0]) {
          assert s[c] in multiset(r);
          var m :| 0 <= m < |r| && r[m] == s[c];
        }
        assert r[0] in multiset(s);
        var c :| 0 <= c < |s| && s[c] == r[0];
        assert ScoreOf(r[0]) == CategoryScore(d, cats[c].keywords);
      }
    }
  }

  /** `run_model_inference`, step by step: the `scores` dict starts at 0.0 for every
      category and the nested loops add each decoded probability to every matching
      category. */
  method RunModelInference(infer: Infer, cats: seq<Category>, modelName: string, x: Pixels, useCategory: bool, top: nat)
    returns (r: Result<InferenceOut>)
    ensures r == Inference(infer, cats, modelName, x, useCategory, top)
  {
    var entry := Resolve(modelName);
    var predicted := infer(entry, x, top);
    if predicted.Failure? {
      return Failure(predicted.error);
    }
    var decoded := predicted.value;
    if |decoded| == 0 {
      return Failure(IndexOutOfRange);
    }
    var bestLabel := decoded[0].name;
    var bestScore := decoded[0].prob;
    var ranking: seq<(string, real)> := [];
    if useCategory {
      var scores := seq(|cats|, c => 0.0);
      var i := 0;
      while i < |decoded|
        invariant 0 <= i <= |decoded|
        invariant |scores| == |cats|
        invariant forall c :: 0 <= c < |cats| ==> scores[c] == CategoryScore(decoded[..i], cats[c].keywords)
      {
        var labelLower := Lower(decoded[i].name);
        assert decoded[..i + 1][..i] == decoded[..i];
        var c := 0;
        while c < |cats|
          invariant 0 <= c <= |cats|
          invariant |scores| == |cats|
          invariant forall c' :: 0 <= c' < c ==> scores[c'] == CategoryScore(decoded[..i + 1], cats[c'].keywords)
          invariant forall c' :: c <= c' < |cats| ==> scores[c'] == CategoryScore(decoded[..i], cats[c'].keywords)
        {
          if labelLower in cats[c].keywords {
            scores := scores[c := scores[c] + decoded[i].prob];
          }
          c := c + 1;
        }
        i := i + 1;
      }
      assert decoded[..|decoded|] == decoded;
      var items := seq(|cats|, c requires 0 <= c < |cats| => (cats[c].name, scores[c]));
      assert items == Scores(decoded, cats);
      ranking := Rank(items);
      assert |ranking| == |cats| by { assert |multiset(ranking)| == |multiset(items)|; }
      if |ranking| == 0 {
        return Failure(IndexOutOfRange);
      }
      bestLabel := ranking[0].0;
      bestScore := ranking[0].1;
    }
    r := Success(InferenceOut(decoded, bestLabel, bestScore, ranking));
  }
}
