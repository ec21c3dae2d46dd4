# picanalyzer — a Dafny model of the analysis pipeline

picanalyzer is a Django application. A user uploads up to three pictures. Each
picture becomes a `MstImages` row and a `TransAnalysis` job. A Celery worker runs
the job through an image-classification network and aggregates the decoded labels
into keyword categories. The job moves 準備中 (preparing) → 解析中 (analysing) →
成功 (succeeded) or 失敗 (failed). Staff pages list the jobs and the users, and a
two-step form edits a user. A small maintenance script merges new labels into a
category's keyword list.

This project models that core in Dafny and proves what the code promises about it:

- `Wrappers`: `Option`, `Result`, and a Python exception as its class name and
  traceback.
- `Text`: the parts of Python's `str` and `os.path` the code relies on (`strip`,
  `lower`, `find`, `split`, `int()`, `str()`, `basename`, `dirname`, `splitext`,
  string order).
- `Sorting`: the stable `sorted(..., key, reverse)`, list filtering and SQL
  `DISTINCT`.
- `AccountsModels`, `AccountsForms`: the user table, the user manager and the
  sign-up email rule.
- `AnalyzerModels`: the two analyzer tables, the status choices and the text
  form of a record.
- `Ai`: the two top-k decoders, the JSON label maps, and the start-up download.
- `Inference`: the model registry and `run_model_inference` with its category
  aggregation and ranking.
- `Persistence`: the tables, the Celery queue and the files the worker tasks change, as
  classes.
- `Tasks`: `analyze_image_task` and `save_image_and_analyze_task`.
- `AnalyzerViews`: the user's listing with waiting numbers, the upload view and
  the re-analysis view.
- `AdminViews`: the staff listing with its filters and dropdowns, the user
  listing, and the two-step user edit.
- `ListOutput`: the keyword-list maintenance script.

The code is imperative where the source changes state step by step:

- The worker task, the views, the user manager and `clean_email` are methods on
  classes (`Database`, `TaskQueue`, `Files`, `UserTable`, `Session`, `LocalFiles`,
  `CategoryMapFile`).
- Their loops carry invariants.
- Each such method is proved against a function that says what it computes.

The parts that only compute a value are functions with lemmas beside them.

Things outside the program are parameters of the model:

- the network (`predict` followed by the decoder);
- `CATEGORY_MAP`;
- the image fetch;
- `slugify`, `uuid4`, `normalize_email`;
- the storage key, the presigned URL and the clock.

Quirks of the code that the model keeps:

- Entering 解析中 does not clear `label` or the error fields. A record that failed
  before and then succeeds keeps its old error (`Tasks.FinishedRecord`).
- Re-analysis keeps `top_preds`. It does not clear every result field.
- When the analysis record is missing, the `finally` block sets `ended_at` on
  `None`. `analyze_image_task` then ends with `AttributeError`: the failure is not recorded
  and the worker's task raises.
- The specialized human pass runs with aggregation on. Its score is therefore a
  category score of the specialized model, not its top probability.
- `decode_*(preds, top=0)` returns every class, because `s[-0:]` is the whole list.
- The confirm step of the user edit has no check of its own. An email that another
  user holds fails at the database's unique constraint.
- `listoutput.py` parses every pasted line before it reads the file. A malformed
  line therefore raises before anything is read or written.

## Model

| member | source | states |
|---|---|---|
| Text.Strip | adminpanel/views.py:143-144 | `strip()` removes whitespace from both ends only: the result is a slice `s[i:j]` with only whitespace before `i` and after `j`, and it is empty or starts and ends with a non-space (which fixes it); it is all of `s` when `s` has no whitespace and empty exactly when `s` is all whitespace |
| Text.StripChar | analyzer/listoutput.py:56 | `strip('"')` is a slice `s[i:j]` with only quotes before `i` and after `j`, and neither of its ends is a quote (which fixes it) |
| Text.TrimLeftFacts | analyzer/listoutput.py:56 | left stripping removes exactly a prefix of stripped characters and stops at the first kept one |
| Text.TrimRightFacts | analyzer/listoutput.py:70 | `rstrip` removes exactly a suffix of stripped characters and stops at the last kept one |
| Text.Lower | analyzer/tasks.py:46 | `lower()` keeps the length and lower-cases each character |
| Text.LowerIdempotent | analyzer/listoutput.py:39 | lower-casing an already lower-cased label changes nothing |
| Text.Find | analyzer/listoutput.py:50 | `find(sub, start)` returns a position at or after `start` where `sub` fits |
| Text.FindFacts | analyzer/listoutput.py:50-53 | `find` returns an occurrence with none earlier from `start`; -1 (`None`) means there is no occurrence from `start` on |
| Text.FindIsFirst | analyzer/listoutput.py:50-53 | the first occurrence at or after `start` is exactly what `find` returns |
| Text.SplitOn | analyzer/listoutput.py:56 | `split(',')` gives at least one piece, no piece contains the separator, and joining the pieces gives the text back |
| Text.RFindFacts | analyzer/tasks.py:132 | `rfind` returns the last occurrence, and -1 only when there is none |
| Text.Basename | analyzer/tasks.py:132 | `basename` is the longest suffix of the path that contains no slash: a slash-free suffix that is the whole path or follows a slash |
| Text.Dirname | analyzer/ai.py:12 | `dirname` is a prefix of the path, empty exactly when the path has no slash; otherwise it is the text through the last slash when that text is all slashes, and else that text with its trailing slashes removed |
| Text.SplitextFacts | analyzer/tasks.py:132 | `splitext` parts concatenate to the name; a non-empty extension is a dot followed by no other dot or slash, lies in the last path component and has something other than dots before it there |
| Text.SplitextEmptyIff | analyzer/tasks.py:132 | the extension is empty exactly when every dot of the last path component has only dots before it, so `.bashrc` has none and `a.b.c` splits at its last dot |
| Text.NatToString | analyzer/tasks.py:82 | `str(n)` is a non-empty string of digits |
| Text.DigitsOfNat | analyzer/tasks.py:82 | the digits of `str(n)` have the value `n` |
| Text.NoSpaceInNumber | analyzer/ai.py:34 | the decimal text of an integer has nothing to strip |
| Text.ParseUnstripped | analyzer/ai.py:34 | `int()` of text with no surrounding whitespace reads the sign and the digits |
| Text.ParseDigits | analyzer/ai.py:34 | `int()` of digits, with or without a minus sign, gives their value |
| Text.ParseIntOfString | analyzer/ai.py:34 | `int(str(i)) == i` for every integer |
| Text.NumberThenSeparator | analyzer/tasks.py:82 | in `str(n)` + separator + rest, the first separator follows the number, the number reads back, and the rest is unchanged |
| Text.LexLessIrreflexive | analyzer/listoutput.py:57 | Python's string order is irreflexive |
| Text.LexLessTransitive | analyzer/listoutput.py:57 | Python's string order is transitive |
| Text.LexLessTotal | analyzer/listoutput.py:57 | Python's string order is total on distinct strings |
| Sorting.InsertDesc | analyzer/tasks.py:51 | one insertion step of the sort adds exactly the element |
| Sorting.SortDesc | analyzer/tasks.py:51 | `sorted(..., reverse=True)` is a permutation of its input |
| Sorting.SortAsc | adminpanel/views.py:114-118 | `order_by(field)` is a permutation of its input |
| Sorting.InsertDescKeepsOrder | analyzer/tasks.py:51 | inserting into a descending list keeps it descending |
| Sorting.InsertDescWithKey | analyzer/tasks.py:51 | among the elements with its key, the inserted element (which came first in the input) comes first |
| Sorting.SortDescSorted | analyzer/tasks.py:51 | the result of `sorted(..., reverse=True)` is in descending key order |
| Sorting.SortDescStable | analyzer/tasks.py:51 | the sort is stable: the elements with equal keys keep their input order |
| Sorting.SortAscSorted | adminpanel/views.py:114-118 | the ascending ordering is in ascending key order |
| Sorting.FirstMaximumLeads | analyzer/tasks.py:51-52 | after a stable descending sort, the first element with the largest key comes first |
| Sorting.FirstWithKey | analyzer/tasks.py:51 | the first element with key `v` heads the list of the elements with that key |
| Sorting.Filter | analyzer/views.py:41-46 | a filter keeps exactly the elements that satisfy the predicate, taken from the input |
| Sorting.FilterAppend | analyzer/views.py:103-110 | filtering a concatenation filters each part |
| Sorting.FilterSnoc | analyzer/views.py:103-110 | filtering one more element appends it exactly when it satisfies the predicate |
| Sorting.FilterPointwise | adminpanel/views.py:30-46 | two filters that agree on every row select the same list |
| Sorting.FilterAll | adminpanel/views.py:30 | `Q()` (a predicate every row meets) filters nothing out |
| Sorting.FilterMembers | analyzer/views.py:41-46 | every selected row meets the filter |
| Sorting.FilterMultiplicity | analyzer/views.py:41-46 | a filter keeps each element that meets it as often as it occurs, and no other element |
| Sorting.SameElements | analyzer/views.py:45 | reordering keeps exactly the same rows |
| Sorting.Distinct | analyzer/views.py:70 | `distinct()` keeps each value of the column once and loses none |
| Sorting.KeyUniqueFilter | analyzer/views.py:49-54 | a filtered query keeps primary keys unique |
| Sorting.KeyUniqueRemoveAt | analyzer/views.py:49-54 | removing a row keeps the keys unique, and no remaining row has its key |
| Sorting.KeyUniquePermutation | analyzer/views.py:49-54 | a reordered query keeps primary keys unique |
| AccountsModels.SetDefault | accounts/models.py:18-20 | `dict.setdefault` adds the key only when it is absent and keeps every other entry |
| AccountsModels.DefaultedFlags | accounts/models.py:17-20 | `create_user` keeps each flag the caller gave and sets each missing one to False |
| AccountsModels.ForcedFlags | accounts/models.py:27-30 | `create_superuser` sets all three flags to True and keeps the other arguments |
| AccountsModels.BuildUser | accounts/models.py:9-12 | the new record has the normalised email, the next id and the creation time; its password is hashed, or unusable for `None` |
| AccountsModels.ModelDefaults | accounts/models.py:40-44 | with no keyword arguments a user is inactive, not staff, not superuser, and has no username |
| AccountsModels.CreateUserFlags | accounts/models.py:17-25 | a user made by `create_user` has each flag the caller gave, else False |
| AccountsModels.CreateSuperuserFlags | accounts/models.py:27-35 | a user made by `create_superuser` has all three flags True whatever the caller gave |
| AccountsModels.UserWithEmail | accounts/models.py:41 | `objects.get(email=...)` finds the one user holding the email, or reports that none does |
| AccountsModels.InsertKeepsUniqueEmails | accounts/models.py:41 | adding a user with an unused email keeps emails unique |
| AccountsModels.UserTable.constructor | accounts/models.py:38-45 | the table starts empty |
| AccountsModels.UserTable.CreateRecord | accounts/models.py:9-15 | `_create_user` builds the record, sets its password and saves it. An unknown keyword raises `TypeError`, a taken email raises `IntegrityError`, and nothing changes on failure |
| AccountsModels.UserTable.CreateUser | accounts/models.py:17-25 | `create_user` succeeds exactly when every keyword is a flag or `username` and the normalized email is free, and then saves the record built from the defaulted flags; an unknown keyword raises `TypeError`, a taken email `IntegrityError`, and a failure saves nothing |
| AccountsModels.UserTable.CreateSuperuser | accounts/models.py:27-35 | `create_superuser` (whose password may be `None`, giving an unusable one) succeeds exactly when every keyword is a flag or `username` and the normalized email is free, and then saves the record built from the forced flags; an unknown keyword raises `TypeError`, a taken email `IntegrityError`, and a failure saves nothing |
| AccountsForms.CleanEmail | accounts/forms.py:13-24 | an unused email is accepted and nothing is deleted; an inactive holder is deleted and the email accepted; an active holder gives a validation error and nothing is deleted; the accepted value is the input |
| AccountsForms.CleanEmailFreesAddress | accounts/forms.py:16-24 | after an accepted `clean_email` no user holds the email, so saving the new user keeps emails unique |
| AccountsForms.CleanChangeRequestEmail | accounts/forms.py:27-28 | the email-change field accepts exactly a stripped, non-empty, valid address of at most 255 characters |
| AnalyzerModels.StatusOf | analyzer/models.py:22-27 | a stored status value names one of the four statuses, or none of them |
| AnalyzerModels.StatusChoicesAreTheStatuses | analyzer/models.py:22-27 | `S_CHOICES` lists exactly the four statuses, each once, with their labels |
| AnalyzerModels.StatusRoundTrip | analyzer/models.py:34-35 | reading a stored status back gives the status |
| AnalyzerModels.NewAnalysis | analyzer/models.py:29-44 | a created job has status 準備中, `use_category` False and every nullable column null; it fits the columns exactly when the model name has at most 20 characters |
| AnalyzerModels.ImageTextParts | analyzer/models.py:13-14 | `str(MstImages)` is the id, which reads back from the text before `(`, then the whole image name in parentheses |
| AnalyzerModels.AnalysisTextParts | analyzer/models.py:46-47 | `str(TransAnalysis)` is the id, which reads back from the text before `(`, then the first 20 characters of the image name (all of it when shorter) in parentheses |
| Ai.LastN | analyzer/ai.py:37 | `s[-top:]` is the last `top` elements, or all of them for `top == 0` or `top >= len(s)` |
| Ai.Reverse | analyzer/ai.py:37 | `s[::-1]` lists the elements in reverse |
| Ai.DecodeTop | analyzer/ai.py:37-39 | a decoder returns one list of `min(top, n)` entries (all for `top == 0`); each carries a class index, its probability, and its label or "Unknown" |
| Ai.DecodeTopIndices | analyzer/ai.py:37 | the k-th decoded entry is the k-th index counted from the end of the argsort |
| Ai.DecodeTopIsTopK | analyzer/ai.py:37-38 | the decoded probabilities never increase, no index repeats, and every index left out is no more probable than any index kept |
| Ai.TailOfArgsortIsTopK | analyzer/ai.py:37 | any list read from the end of an argsort is a top-k |
| Ai.Decode1001 | analyzer/ai.py:36-39 | `decode_1001` returns one list of `min(top, n)` entries |
| Ai.Decode5Class | analyzer/ai.py:51-54 | `decode_5class` returns one list of `min(top, n)` entries |
| Ai.DecoderDefaults | analyzer/ai.py:36-54 | by default `decode_1001` returns at most 5 entries, and `decode_5class` returns one entry of maximal probability |
| Ai.ParseKeys | analyzer/ai.py:34 | `int(k)` succeeds on every key or raises `ValueError` on one that does not read as an integer; each value keeps its item's position |
| Ai.BuildMapContents | analyzer/ai.py:34 | the dict holds exactly the keys of the items, each with the value of its last item |
| Ai.BuildMapKeys | analyzer/ai.py:34 | the dict holds exactly the keys of the items |
| Ai.BuildMapValues | analyzer/ai.py:34 | a key not repeated later maps to its item's value |
| Ai.LabelMap | analyzer/ai.py:34 | the label map loads exactly when every key reads as an integer |
| Ai.ParseIntKeyedItems | analyzer/ai.py:34 | keys that are the decimal text of integers parse back to those integers |
| Ai.LabelMapOfIntKeys | analyzer/ai.py:31-34 | such a file always loads, and the map sends each class index to its label |
| Ai.BuildMapOfPairs | analyzer/ai.py:34 | the dict built from `(ids[k], names[k])` has exactly the ids as keys, with the last name given to each |
| Ai.LocalFiles.constructor | analyzer/ai.py:8-17 | the file system starts with the given files and directories and no download |
| Ai.LocalFiles.DownloadFromS3 | analyzer/ai.py:8-17 | `download_from_s3` changes nothing when the path exists. Otherwise it creates the directory and the file and starts one fetch, or raises when the directory is empty or is a file. A path is never fetched twice |
| Ai.DownloadModelFiles | analyzer/ai.py:21-28 | the start-up loop leaves the exception and the disk exactly as the reference `DownloadAll` (one `download_from_s3` per model file, in order, stopping at the first exception) does. When none is raised every model file exists and every copy that ran succeeded; none is raised when every copy succeeds and every directory can be created |
| Ai.DownloadAllOutcome | analyzer/ai.py:21-28 | an exception comes from the download of some file k whose turn came after every earlier download succeeded; it is file k's copy error, or `MissingDirectory`/`NotADirectory` for its directory, and the disk then holds exactly what file k's attempt left. Without exception every model path exists |
| Ai.DownloadKeepsPaths | analyzer/ai.py:21-28 | the start-up loop never removes a file or a directory |
| Ai.PresentFilesSkipped | analyzer/ai.py:8-28 | when every model file is already on disk the loop raises nothing and changes nothing |
| Inference.Resolve | analyzer/tasks.py:21-30 | a registered name gets its own entry, and any other name gets an entry of the registry |
| Inference.ResolveUnknown | analyzer/tasks.py:30 | an unknown model name resolves to the `efficientnet_b0` entry |
| Inference.CategoryScoreIsMatchedTotal | analyzer/tasks.py:44-49 | a category's score is the total probability of the decoded entries whose lower-cased label is one of its keywords |
| Inference.TotalProbAppend | analyzer/tasks.py:44-49 | total probability adds over concatenation |
| Inference.CategoryScoreBounds | analyzer/tasks.py:44-49 | with non-negative probabilities each score lies between 0 and the total decoded probability |
| Inference.RankIsStableDescending | analyzer/tasks.py:51 | the ranking lists each category once with its score, by descending score; categories with equal scores stay in map order |
| Inference.BestCategoryIsFirstMaximum | analyzer/tasks.py:51-53 | the best category is the first one, in map order, with the highest score |
| Inference.InferenceResult | analyzer/tasks.py:29-56 | the decoded list is returned as decoded. Without categories the best label and score are the first decoded entry's and the ranking is empty; with categories the best is the head of the ranking, whose score is some category's score and at least every category's; an empty decoded list or category map raises `IndexError` |
| Inference.RunModelInference | analyzer/tasks.py:29-56 | the nested loops that add each decoded probability to every matching category compute exactly the specified inference result |
| Tasks.RankingEntryLabel | analyzer/tasks.py:79-84 | each ranking entry has no index, its category's score, and the label "<rank> <category>" whose rank, counted from 1, reads back |
| Tasks.PipelineResult | analyzer/tasks.py:76-99 | the final list is the decoded entries, then the ranking entries, then one "Human (specialized)" entry exactly when the best label is "Human (category)"; the best score becomes the larger score and is never lowered |
| Tasks.TopPreds | analyzer/tasks.py:102-105 | `top_preds` holds every entry of the final list, in order, as label and probability |
| Tasks.FinishedRecord | analyzer/tasks.py:63-123 | a finished job has status 成功 or 失敗, both timestamps, and its model. On success it holds the label, the reliability (score × 100) and `top_preds`; on failure it holds the exception's name and traceback. Fields of the other path stay as they were |
| Tasks.LongErrorNameOverflows | analyzer/tasks.py:112-123 | an exception whose class name is longer than 20 characters gives a failed record that breaks the `error_name` column's limit |
| Tasks.RankingEntriesSnoc | analyzer/tasks.py:79-84 | one more loop iteration appends the next ranking entry |
| Tasks.RunPipeline | analyzer/tasks.py:69-99 | the try block's fetch, inference and append loop computes exactly the specified pipeline result or its first exception |
| Tasks.AnalyzeImageTask | analyzer/tasks.py:59-123 | a missing record ends with `AttributeError` in `finally` and changes nothing. Otherwise the job is saved as 解析中, then finished, and no other row changes |
| Tasks.SaveResult | analyzer/tasks.py:102-123 | the `try` or `except` save and then the `finally` save leave exactly the finished record |
| Tasks.SafeBase | analyzer/tasks.py:133 | the safe base is `slugify(base)[:40]` (a prefix of the slug of length min(len, 40)), or "image" when that is empty; it has 1 to 40 characters |
| Tasks.UploadFilenameParts | analyzer/tasks.py:132-135 | the stored name is the safe base, a dash, six hex characters, and the lower-cased extension (empty or starting with a dot) |
| Tasks.SaveImageAndAnalyzeTask | analyzer/tasks.py:127-160 | a missing temporary file, and then a failed upload, raise before anything changes (the temporary file stays). Otherwise the file is stored under `uploads/` and the temporary file deleted; the image and its 準備中 job are created; one analysis task is queued with the new job's id and a day-long presigned URL |
| Persistence.TaskQueue.constructor | analyzer/tasks.py:155 | the broker's queue starts empty |
| Persistence.TaskQueue.Delay | analyzer/tasks.py:155-160 | `.delay` appends exactly one message |
| Persistence.Database.constructor | analyzer/models.py:7-44 | the tables start empty |
| Persistence.Database.Save | analyzer/tasks.py:67 | `save()` overwrites exactly one job row |
| Persistence.Database.CreateImage | analyzer/tasks.py:142 | `MstImages.objects.create` adds one row with the next id and nothing else |
| Persistence.Database.CreateAnalysis | analyzer/tasks.py:143-147 | `TransAnalysis.objects.create` adds one 準備中 row with the next id and the column defaults |
| Persistence.Files.constructor | analyzer/tasks.py:136-139 | the temporary files and the bucket start as given |
| AnalyzerViews.OrderByUploadSorted | analyzer/views.py:34-45 | the ordering keeps every row, by upload time ascending for `asc` and descending otherwise |
| AnalyzerViews.TopListingContents | analyzer/views.py:22-46 | the listing holds exactly the current user's rows that match the given status and label, each as often as stored; it is ascending only for `sort=asc` |
| AnalyzerViews.WaitingPositionsOf | analyzer/views.py:55 | `enumerate` numbers the k-th waiting id k + 1 |
| AnalyzerViews.QueueIds | analyzer/views.py:53 | `values_list('analysis_id')` lists the ids in queue order |
| AnalyzerViews.PendingQueueFacts | analyzer/views.py:49-54 | the waiting list holds every 準備中 job of every user and nothing else, oldest upload first, with unique ids |
| AnalyzerViews.QueueNumbers | analyzer/views.py:55-59 | the k-th job of the waiting list gets number k + 1 |
| AnalyzerViews.WaitingNumbersAreRanks | analyzer/views.py:49-61 | waiting numbers are 1..P over all 準備中 jobs; an earlier upload gets a smaller number, and any other status gets `None` |
| AnalyzerViews.EarlierUploadSmallerNumber | analyzer/views.py:49-59 | numbers that follow the upload-ordered queue order the waiting rows by upload time |
| AnalyzerViews.AssignWaitingNumbers | analyzer/views.py:57-61 | the loop sets each listed row's number from the waiting positions |
| AnalyzerViews.UserLabels | analyzer/views.py:64-69 | the collected labels are never empty |
| AnalyzerViews.UserLabelsMembership | analyzer/views.py:64-69 | a label is collected exactly when one of the user's jobs carries it and it is not empty |
| AnalyzerViews.LabelOptionsExact | analyzer/views.py:64-71 | the label dropdown offers exactly the user's non-null, non-empty labels, each once |
| AnalyzerViews.TopContext | analyzer/views.py:18-80 | the page gets the filtered and sorted listing, each row's waiting number and the label dropdown |
| AnalyzerViews.IntactUploads | analyzer/views.py:103-110 | the verification loop keeps exactly the intact files, in upload order |
| AnalyzerViews.UploadMessagesSnoc | analyzer/views.py:117-129 | one more valid file adds its one task message at the end |
| AnalyzerViews.TempPathsSnoc | analyzer/views.py:117-121 | one more valid file adds its temporary file |
| AnalyzerViews.EnqueueUploads | analyzer/views.py:117-129 | one temporary file is written and one save-and-analyze task queued per valid file, in order, and nothing is stored in the bucket |
| AnalyzerViews.UploadPost | analyzer/views.py:88-131 | no file or more than three files are refused with a message, and no valid file gives an error; nothing is queued on a refusal. Otherwise one task per valid file is queued with the user, the model (default `mobilenet_v2`) and the flag, and the view redirects |
| AnalyzerViews.ResetIsClean | analyzer/views.py:143-157 | the reset sets the new model and flag and status 準備中, clears label, reliability, timestamps and errors, and keeps the image and `top_preds` |
| AnalyzerViews.ReanalysisThenRun | analyzer/views.py:143-157 | after a reset, a successful run has no error and a full result, and a failed run has no stale label or reliability |
| AnalyzerViews.ReanalyzePost | analyzer/views.py:139-169 | a missing job is a 404; a missing `model_name` fails at the save and changes nothing; otherwise the job is reset and one analysis task is queued for the same id |
| AdminViews.BuildFilters | adminpanel/views.py:29-38 | the `&=` terms select exactly the rows meeting each given filter, and there is no term when no filter is given |
| AdminViews.SatisfiesSnoc | adminpanel/views.py:31-38 | each `&= Q(...)` narrows the filter by exactly that term |
| AdminViews.AdminListingContents | adminpanel/views.py:22-49 | the staff listing holds exactly the rows meeting every given filter, each as often as in the table, ordered by upload time, ascending only for `asc` |
| AdminViews.AdminListingCounts | adminpanel/views.py:22-49 | each row meeting every given filter appears in the staff listing as often as in the table, and no other row appears |
| AdminViews.AbsentFiltersKeepEverything | adminpanel/views.py:30 | with no filter given, the listing is every job, reordered |
| AdminViews.ErrorNames | adminpanel/views.py:68-72 | the collected error names are never empty |
| AdminViews.ErrorNamesMembership | adminpanel/views.py:68-72 | an error name is collected exactly when a job carries it and it is not empty |
| AdminViews.ErrorOptionsExact | adminpanel/views.py:68-74 | the error dropdown offers exactly the non-null, non-empty error names, each once |
| AdminViews.ModelNames | adminpanel/views.py:75-77 | one model name per job, in order |
| AdminViews.ModelOptionsExact | adminpanel/views.py:75-79 | the model dropdown offers exactly the model names in use, each once |
| AdminViews.UserOptionsExact | adminpanel/views.py:67 | a user's email is offered exactly when the user is active |
| AdminViews.PicturesContext | adminpanel/views.py:19-92 | the page gets the filtered, sorted listing built from the `&=` terms, each row's waiting number, and the three dropdowns |
| AdminViews.StaffFilter | adminpanel/views.py:109-111 | the staff filter applies only for exactly `True` or `False`, and then selects that value |
| AdminViews.UsersListingContents | adminpanel/views.py:105-118 | the user listing holds exactly the users matching the staff filter, each as often as in the table, and every user when the filter does not apply |
| AdminViews.UsersListingMembers | adminpanel/views.py:105-118 | the user listing holds only users matching the staff filter, and every matching user |
| AdminViews.UsersListingCounts | adminpanel/views.py:105-118 | each matching user appears in the user listing as often as in the table, and no other user appears |
| AdminViews.UsersListingOrdered | adminpanel/views.py:106-118 | users are ordered by creation time, oldest first only for `asc` |
| AdminViews.Session.constructor | adminpanel/views.py:158 | a session starts with no pending edit |
| AdminViews.ApplyEdit | adminpanel/views.py:186-190 | the confirm step sets email, username and staff and keeps every other field |
| AdminViews.NoOpIffUnchanged | adminpanel/views.py:147-151 | applying an edit changes nothing exactly when it is a no-op and the user has a username |
| AdminViews.UserEditPost | adminpanel/views.py:140-164 | a missing user is a 404; an unchanged proposal writes nothing to the session; otherwise the proposal is stored in the session and the user is not saved |
| AdminViews.UserEditConfirmPost | adminpanel/views.py:181-194 | without a pending edit nothing changes; a missing user is a 404; an email held by another user fails at the save and keeps the session; otherwise the three fields are saved and the pending edit removed |
| ListOutput.ParseLabel | analyzer/listoutput.py:39 | a line without `. ` raises `IndexError` |
| ListOutput.ParseResultLine | analyzer/listoutput.py:39 | parsing `N. label (p)` gives the label lower-cased whenever the label has no ` (` |
| ListOutput.FirstSeparatorAfterDigits | analyzer/listoutput.py:39 | the first `. ` of a result line follows its rank |
| ListOutput.FirstParenAfterName | analyzer/listoutput.py:39 | the first ` (` after the rank follows the label |
| ListOutput.ParseLines | analyzer/listoutput.py:38-39 | every line gives its label, in order, or the first malformed line raises `IndexError` |
| ListOutput.ItemsOf | analyzer/listoutput.py:56 | no more items than pieces |
| ListOutput.ItemsOfMembership | analyzer/listoutput.py:56 | every non-blank piece gives one item, with its spaces and quotes stripped, and nothing else does |
| ListOutput.InsertSorted | analyzer/listoutput.py:57 | inserting adds exactly the value to the set |
| ListOutput.InsertSortedAscending | analyzer/listoutput.py:57 | inserting keeps the list strictly ascending |
| ListOutput.SortedSet | analyzer/listoutput.py:57 | `sorted(set(s))` holds exactly the values of `s` |
| ListOutput.SortedSetAscending | analyzer/listoutput.py:57 | `sorted(set(s))` is strictly ascending, so it has no duplicates |
| ListOutput.MergeIsSortedUnion | analyzer/listoutput.py:57 | the merged list is strictly ascending and is the union of the old items and the new labels |
| ListOutput.FormatItems | analyzer/listoutput.py:63-70 | the formatting loop computes exactly the stripped rendering |
| ListOutput.ChunkInFirstLine | analyzer/listoutput.py:64-69 | within a line the indent comes only before item 1 and the newline only after item 8 |
| ListOutput.RenderedShort | analyzer/listoutput.py:63-69 | up to eight items render as one indented line |
| ListOutput.ChunkPeriodic | analyzer/listoutput.py:64-69 | positions eight apart open and close lines alike |
| ListOutput.RenderedShift | analyzer/listoutput.py:63-69 | the rendering of whole lines followed by more items is the two renderings concatenated |
| ListOutput.RenderedIsWrapped | analyzer/listoutput.py:60-69 | the loop lays items out eight per line, each line indented and each full line ending in a newline |
| ListOutput.TrimRightTail | analyzer/listoutput.py:70 | `rstrip(", \n")` removes exactly a tail of those characters |
| ListOutput.FormattedEndsAtLastItem | analyzer/listoutput.py:70 | the strip removes the final `, ` and, after a full line, its newline; the text ends at the last item's quote |
| ListOutput.SamePrefixSameOccurrences | analyzer/listoutput.py:74 | texts with the same prefix have the same occurrences within it |
| ListOutput.SplicePrefix | analyzer/listoutput.py:74 | the rewritten content agrees with the old one up to the end of the start token |
| ListOutput.FirstOccurrenceKept | analyzer/listoutput.py:74 | a text that agrees up to the end of the first token has its first token at the same place |
| ListOutput.SpliceKeepsFirstOccurrence | analyzer/listoutput.py:49-74 | after the rewrite the start token is still first found at the same place |
| ListOutput.RewriteNotFound | analyzer/listoutput.py:50-83 | the file is left alone exactly when the start token, or a `]]` after it, is missing |
| ListOutput.RewriteFound | analyzer/listoutput.py:50-74 | when both are found, the block from the first start token to the first `]]` after it is replaced |
| ListOutput.SpliceAtKeepsSurroundings | analyzer/listoutput.py:74 | the text before the start token and after the `]]` is unchanged |
| ListOutput.SpliceAtIsSplice | analyzer/listoutput.py:73-74 | the new file is the text before, a block starting with the start token, and the text after |
| ListOutput.SpliceAtItems | analyzer/listoutput.py:55-74 | the new block lists the old items and the new labels, sorted and without repetition |
| ListOutput.NewBlockStartsWithToken | analyzer/listoutput.py:73 | the new block starts with the start token |
| ListOutput.CategoryMapFile.constructor | analyzer/listoutput.py:42-44 | the file holds the given content |
| ListOutput.CategoryMapFile.Run | analyzer/listoutput.py:37-83 | a malformed line raises before the file is read. When the block is not found the file is not written, with "category not found" exactly when the start token is missing. Otherwise the file becomes the rewritten content |

## Left out

- TensorFlow and Keras: building the networks, `preprocess_input`, `predict`,
  `load_model`, `K.clear_session`, `gc.collect`. The network followed by its
  decoder is the parameter `infer`; probabilities are `real`, not floats.
- The tie order of `argsort` among equal probabilities is left open: the decoders
  take any argsort of the probabilities.
- `analyzer/tasks.py` imports `load_effb0_custom`, which `analyzer/ai.py` does not
  define (it defines `load_mnv2_custom`). The registry's loaders are opaque names
  here, so this import failure is not modelled.
- The loading of the two JSON label files (`json.load`): the model starts from
  their items as key and value text.
- HTTP (`requests.get`, `raise_for_status`), PIL (`verify`, `load_img`), boto3
  and S3, presigned URLs, temporary-file contents and the clock. These are
  parameters of the model or outcomes handed to it; the stored key and the URL
  are functions of their inputs.
- Runtime exception messages: an exception raised by Python or a library keeps
  its class name and only what its message names (a path, a key, a column).
- `slugify`, `uuid4` and `normalize_email` are parameters.
- Celery and its broker (`pic_analyzer/celery.py`): `.delay` appends a message to
  a queue, and nothing runs the queued tasks.
- The ORM: tables are maps, queries are filters and stable sorts over the rows in
  table order. The database leaves ties in `order_by` unspecified; the model
  keeps table order.
- `transaction.atomic`, concurrency between workers, and cascade deletes.
- `UserDeleteView.post` and `ImageDeleteView.post` only call `delete()` and rely
  on the cascade, which is not modelled.
- The GET views, the templates and their context keys that only echo the
  parameters, the login and staff mixins, and the flash-message storage.
- `accounts/views.py`, `accounts/admin.py`, the `urls.py` files and the
  JavaScript under `static/` are not part of this model.
- `Text.Lower` lower-cases ASCII letters only: Python's full Unicode case mapping
  is not modelled.
- AnalyzerModels.NewAnalysis: the `max_length` limits are stated as a predicate on
  the record; the database's enforcement of them (and of the 10-character
  `username`) is not modelled. It matters: Pillow's `UnidentifiedImageError` has
  22 characters, so on a database that enforces the limit both the `except` save
  and the `finally` save of that failure are rejected and the stored job stays
  解析中 (`Tasks.LongErrorNameOverflows` states the broken limit).
- AccountsModels.UserTable.CreateRecord: the accepted keywords are narrowed to the three
  flags and `username`; Django's model constructor also accepts `user_id`, `created_at`
  and `last_login`, which the model treats as unknown keywords (`TypeError`).
- AccountsModels.UserTable.CreateUser: the same narrowed keyword set; passing `user_id`,
  `created_at` or `last_login` fails in the model but not in Django.
- AccountsModels.UserTable.CreateSuperuser: the same narrowed keyword set; passing
  `user_id`, `created_at` or `last_login` fails in the model but not in Django.
- Text.ParseInt: Python's `int()` also accepts underscores between digits and
  non-ASCII decimal digits; the model reads only ASCII digits.
- Inference.InferenceResult: `CATEGORY_MAP` is a dict, so its category names are
  distinct; the model takes the map as a list and does not require distinct names
  (with repeated names it ranks each entry separately).
- AdminViews.UserOptionsExact: the user dropdown is modelled as a set of emails,
  because the query sets no order.
- AdminViews.ApplyEdit: the stored username is `Some("")` when the form left it
  blank, as the code stores `''` rather than null.
- The start-up download runs over the `model_files` list given as a parameter
  (`Ai.ModelFiles` holds the four pairs); the module-level `BUCKET_NAME` is a
  parameter too.
