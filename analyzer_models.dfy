/** The two tables of the analyzer app: `MstImages` (an uploaded image) and
    `TransAnalysis` (one analysis job of an image), with the job's status choices,
    its field defaults and nullable columns, and the text form of each record. */
module AnalyzerModels {
  import opened Wrappers
  import opened Text
  import opened AccountsModels

  /** The four values of `TransAnalysis.status`. */
  datatype Status = Preparing | Analyzing | Succeeded | Failed
  {
    /** The value stored in the `status` column. */
    function Value(): string
    {
      match this
      case Preparing => "準備中"
      case Analyzing => "解析中"
      case Succeeded => "成功"
      case Failed => "失敗"
    }

    /** The label shown for the choice. */
    function Display(): string
    {
      match this
      case Preparing => "準備中"
      case Analyzing => "解析中"
      case Succeeded => "解析成功"
      case Failed => "解析失敗"
    }
  }

  /** `S_CHOICES`, in declaration order: (stored value, display label). */
  const StatusChoices: seq<(string, string)> :=
    [("準備中", "準備中"), ("解析中", "解析中"), ("成功", "解析成功"), ("失敗", "解析失敗")]

  /** The status whose stored value is `v`, if any of the four has it. */
  function StatusOf(v: string): (r: Option<Status>)
    ensures r.Some? ==> r.value.Value() == v
    ensures r.None? ==> forall st: Status :: st.Value() != v
  {
    if v == Preparing.Value() then Some(Preparing)
    else if v == Analyzing.Value() then Some(Analyzing)
    else if v == Succeeded.Value() then Some(Succeeded)
    else if v == Failed.Value() then Some(Failed)
    else None
  }

  /** The choice list holds exactly the four statuses, each once, in order. */
  lemma StatusChoicesAreTheStatuses()
    ensures |StatusChoices| == 4
    ensures forall k :: 0 <= k < 4 ==> StatusOf(StatusChoices[k].0).Some?
    ensures forall st: Status :: exists k :: 0 <= k < 4 && StatusChoices[k] == (st.Value(), st.Display())
    ensures forall j, k :: 0 <= j < k < 4 ==> StatusChoices[j].0 != StatusChoices[k].0
  {
    assert StatusChoices[0] == (Preparing.Value(), Preparing.Display());
    assert StatusChoices[1] == (Analyzing.Value(), Analyzing.Display());
    assert StatusChoices[2] == (Succeeded.Value(), Succeeded.Display());
    assert StatusChoices[3] == (Failed.Value(), Failed.Display());
  }

  /** Reading a stored status back gives the status. */
  lemma StatusRoundTrip(st: Status)
    ensures StatusOf(st.Value()) == Some(st)
  {
  }

  // ---------------------------------------------------------------------------
  // Records

  /** One row of `MstImages`; `name` is the storage key of the image file. */
  datatype ImageRecord = ImageRecord(id: nat, userId: nat, name: string, uploadedAt: Time)

  /** One element of `top_preds`: the JSON object `{"label": name, "prob": prob}`. */
  datatype Pred = Pred(name: string, prob: real)

  /** One row of `TransAnalysis`. Every `Option` field is a nullable column;
      `bestLabel` is the `label` column. */
  datatype Analysis = Analysis(
    id: nat,
    imageId: nat,
    modelName: string,
    useCategory: bool,
    status: Status,
    bestLabel: Option<string>,
    topPreds: Option<seq<Pred>>,
    reliability: Option<real>,
    startedAt: Option<Time>,
    endedAt: Option<Time>,
    errorLog: Option<string>,
    errorName: Option<string>)

  const ModelNameMaxLength: nat := 20
  const LabelMaxLength: nat := 20
  const ErrorNameMaxLength: nat := 20
  const StatusMaxLength: nat := 10

  /** The `max_length` limits of the character columns. */
  predicate FitsColumns(a: Analysis)
  {
    && |a.modelName| <= ModelNameMaxLength
    && |a.status.Value()| <= StatusMaxLength
    && (a.bestLabel.Some? ==> |a.bestLabel.value| <= LabelMaxLength)
    && (a.errorName.Some? ==> |a.errorName.value| <= ErrorNameMaxLength)
  }

  /** No result, timestamp or error is recorded: the state of a job waiting in the queue. */
  predicate IsPendingClean(a: Analysis)
  {
    && a.status == Preparing
    && a.bestLabel.None? && a.reliability.None?
    && a.startedAt.None? && a.endedAt.None?
    && a.errorName.None? && a.errorLog.None?
  }

  /** `TransAnalysis.objects.create(image=..., model_name=..., status="準備中")`:
      every column not given takes its declared default (`use_category=False`,
      status 準備中, the nullable columns null). */
  function NewAnalysis(id: nat, imageId: nat, modelName: string): (a: Analysis)
    ensures a.id == id && a.imageId == imageId && a.modelName == modelName
    ensures IsPendingClean(a) && a.topPreds.None? && !a.useCategory
    ensures FitsColumns(a) <==> |modelName| <= ModelNameMaxLength
  {
    Analysis(id, imageId, modelName, false, Preparing, None, None, None, None, None, None, None)
  }

  /** `str(MstImages)`: the id, then the image name in parentheses. */
  function ImageText(img: ImageRecord): string
  {
    NatToString(img.id) + "(" + img.name + ")"
  }

  /** The text form of an image starts with its id, which reads back from the text
      before the first parenthesis, and ends with the whole image name in parentheses. */
  lemma ImageTextParts(img: ImageRecord)
    ensures var t := ImageText(img);
            var k := |NatToString(img.id)|;
            && Find(t, "(", 0) == Some(k)
            && ParseInt(t[..k]) == Some(img.id)
            && |t| == k + |img.name| + 2 && t[|t| - 1] == ')'
            && t[k + 1..|t| - 1] == img.name
  {
    var rest := img.name + ")";
    NumberThenSeparator(img.id, '(', rest);
    assert ImageText(img) == NatToString(img.id) + ['('] + rest;
    assert "(" == ['('];
    assert rest[..|rest| - 1] == img.name;
  }

  /** `str(TransAnalysis)`: the id, then the first 20 characters of the image name
      in parentheses. */
  function AnalysisText(a: Analysis, imageName: string): string
  {
    NatToString(a.id) + "(" + Take(imageName, 20) + ")"
  }

  /** The text form starts with the id, which can be read back from the text before
      the first parenthesis, and shows at most 20 characters of the image name. */
  lemma AnalysisTextParts(a: Analysis, imageName: string)
    ensures var t := AnalysisText(a, imageName);
            var k := |NatToString(a.id)|;
            && Find(t, "(", 0) == Some(k)
            && ParseInt(t[..k]) == Some(a.id)
            && |t| <= k + 22 && t[|t| - 1] == ')'
            && t[k + 1..|t| - 1] <= imageName
            && |t| - k - 2 == if |imageName| < 20 then |imageName| else 20
  {
    var rest := Take(imageName, 20) + ")";
    NumberThenSeparator(a.id, '(', rest);
    assert AnalysisText(a, imageName) == NatToString(a.id) + ['('] + rest;
    assert "(" == ['('];
  }
}
