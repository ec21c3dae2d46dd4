/** The state the pipeline changes: the two analyzer tables, the Celery queue, the
    local temporary files and the object storage bucket. */
module Persistence {
  import opened Wrappers
  import opened AccountsModels
  import opened AnalyzerModels

  /** A task message handed to the broker by `.delay(...)`. */
  datatype Message =
    | SaveAndAnalyze(tempPath: string, userId: nat, modelName: string, useCategory: bool)
    | Analyze(analysisId: nat, fullPath: string, modelName: string, useCategory: bool)

  /** The broker's queue; `.delay` appends one message. */
  class TaskQueue {
    var messages: seq<Message>

    constructor ()
      ensures messages == []
    {
      messages := [];
    }

    method Delay(m: Message)
      modifies this
      ensures messages == old(messages) + [m]
    {
      messages := messages + [m];
    }
  }

  /** The `MstImages` and `TransAnalysis` tables; the `next` counters are the
      auto-increment sequences of their primary keys. */
  class Database {
    var images: map<nat, ImageRecord>
    var analyses: map<nat, Analysis>
    var nextImageId: nat
    var nextAnalysisId: nat

    /** Primary keys match the rows and every analysis points at an existing image. */
    ghost predicate Valid()
      reads this
    {
      && (forall id :: id in images ==> id < nextImageId && images[id].id == id)
      && (forall id :: id in analyses ==> id < nextAnalysisId && analyses[id].id == id && analyses[id].imageId in images)
    }

    constructor ()
      ensures Valid() && images == map[] && analyses == map[]
    {
      images, analyses := map[], map[];
      nextImageId, nextAnalysisId := 0, 0;
    }

    /** `analysis.save()` on a fetched record: the row is overwritten. */
    method Save(a: Analysis)
      requires Valid() && a.id in analyses && a.imageId in images
      modifies this
      ensures Valid()
      ensures analyses == old(analyses)[a.id := a]
      ensures images == old(images) && nextImageId == old(nextImageId) && nextAnalysisId == old(nextAnalysisId)
    {
      analyses := analyses[a.id := a];
    }

    /** `MstImages.objects.create(user_id=..., image=key)`. */
    method CreateImage(userId: nat, name: string, now: Time) returns (img: ImageRecord)
      requires Valid()
      modifies this
      ensures Valid()
      ensures img == ImageRecord(old(nextImageId), userId, name, now) && old(nextImageId) !in old(images)
      ensures images == old(images)[img.id := img]
      ensures analyses == old(analyses) && nextAnalysisId == old(nextAnalysisId) && nextImageId == old(nextImageId) + 1
    {
      img := ImageRecord(nextImageId, userId, name, now);
      images := images[nextImageId := img];
      nextImageId := nextImageId + 1;
    }

    /** `TransAnalysis.objects.create(image=..., model_name=..., status="準備中")`. */
    method CreateAnalysis(imageId: nat, modelName: string) returns (a: Analysis)
      requires Valid() && imageId in images
      modifies this
      ensures Valid()
      ensures a == NewAnalysis(old(nextAnalysisId), imageId, modelName) && old(nextAnalysisId) !in old(analyses)
      ensures analyses == old(analyses)[a.id := a]
      ensures images == old(images) && nextImageId == old(nextImageId) && nextAnalysisId == old(nextAnalysisId) + 1
    {
      a := NewAnalysis(nextAnalysisId, imageId, modelName);
      analyses := analyses[nextAnalysisId := a];
      nextAnalysisId := nextAnalysisId + 1;
    }
  }

  /** The worker's local temporary files and the keys stored in the bucket. */
  class Files {
    var temp: set<string>
    var objects: set<string>

    constructor (temp0: set<string>, objects0: set<string>)
      ensures temp == temp0 && objects == objects0
    {
      temp, objects := temp0, objects0;
    }
  }
}
