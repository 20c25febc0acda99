/**
  * The `IngestionService` object whose methods change its fields in place.
  * Each method is proved to move the fields exactly as the transition of the
  * same name in module `Ingestion` moves a `State`.
  */
module Service {
  import opened Wrappers
  import opened Js
  import opened Ingestion

  /** The `IngestionService` object: its map of records, its set of
      cancelled ids, the record objects those refer to, the files it wrote,
      and the workers it queued.  Every method changes the fields as the
      transition of the same name changes a `State`. */
  class IngestionService {
    const env: Env
    var objects: map<nat, IngestionRecord>
    var nextRef: nat
    var ingestions: map<string, nat>
    var cancelled: set<string>
    var disk: Disk
    var workers: map<string, Worker>

    function Model(): State
      reads this
    {
      State(objects, nextRef, ingestions, cancelled, disk, workers)
    }

    predicate Valid()
      reads this
    {
      Inv(Model())
    }

    /** Construction followed by `init()`: the listed record files are
        loaded one by one, a later file replacing an earlier one's id. */
    constructor (env: Env, disk: Disk, listing: Option<seq<string>>)
      ensures Model() == Initial(env, disk, listing) && this.env == env
      ensures Valid()
    {
      var loadedObjects: map<nat, IngestionRecord> := map[];
      var loadedIds: map<string, nat> := map[];
      var count := 0;
      if listing.Some? {
        var files := listing.value;
        ghost var loaded: seq<IngestionRecord> := [];
        var i := 0;
        while i < |files|
          invariant 0 <= i <= |files| && loaded == LoadedRecords(env, disk, files[..i])
          invariant count == |loaded| && loadedObjects == ObjectsOf(loaded) && loadedIds == Latest(loaded)
        {
          LoadNext(env, disk, files, i);
          var found := LoadFile(env, disk, files[i]);
          assert found == [] || found == [found[0]];
          if found != [] {
            LoadedAppend(loaded, found[0]);
            loadedObjects := loadedObjects[count := found[0]];
            loadedIds := loadedIds[found[0].id := count];
            count := count + 1;
            loaded := loaded + [found[0]];
          }
          i := i + 1;
        }
        assert files[..|files|] == files;
      }
      this.env := env;
      this.disk := disk;
      objects := loadedObjects;
      nextRef := count;
      ingestions := loadedIds;
      cancelled := {};
      workers := map[];
    }

    /** `delete(id)`: cancel, drop from the map, then unlink the record file,
        the transcript and the audio. */
    method Delete(id: string)
      requires Valid()
      modifies this
      ensures Model() == Ingestion.Delete(old(Model()), id)
      ensures Valid()
    {
      var record := Live(Model(), id);
      cancelled := cancelled + {id};
      ingestions := ingestions - {id};
      var transcript := if record.Some? && record.value.transcriptPath.Some?
                        then record.value.transcriptPath.value else TranscriptFile(id);
      var audio := if record.Some? then {record.value.audioPath} else {};
      disk := Unlink(disk, RecordPath(id));
      RemoveInTurn(old(disk), {RecordPath(id)} - {""}, {transcript} - {""});
      disk := Unlink(disk, transcript);
      if record.Some? {
        RemoveInTurn(old(disk), ({RecordPath(id)} - {""}) + ({transcript} - {""}), audio - {""});
        disk := Unlink(disk, record.value.audioPath);
      }
      DeletedInTurn(old(Model()), id, transcript, audio);
      assert disk == old(disk) - DeletedFiles(old(Model()), id);
    }

    /** `deleteAllForOwner(ownerId)`: the owner's ids are collected first,
        then deleted one after another. */
    method DeleteAllForOwner(ownerId: string)
      requires Valid()
      modifies this
      ensures Model() == DeleteAll(old(Model()), ownerId)
      ensures Valid()
    {
      ghost var s0 := Model();
      var toDelete := Owned(Model(), ownerId);
      DeleteNone(s0);
      assert Owned(s0, ownerId) - toDelete == {};
      while toDelete != {}
        invariant toDelete <= Owned(s0, ownerId)
        invariant Model() == DeleteSome(s0, Owned(s0, ownerId) - toDelete)
        invariant Valid()
      {
        var existingId :| existingId in toDelete;
        DeleteOneMore(s0, Owned(s0, ownerId) - toDelete, existingId);
        Delete(existingId);
        assert Owned(s0, ownerId) - toDelete + {existingId} == Owned(s0, ownerId) - (toDelete - {existingId});
        toDelete := toDelete - {existingId};
      }
    }

    /** The shared part of both creations: put, persist, then queue. */
    method Create(r: IngestionRecord, job: Job, persist: Option<JsError>) returns (res: Result<nat, JsError>)
      requires Valid()
      requires r.id !in ingestions && r.id !in cancelled && r.id !in workers
      requires r.ask.None? && r.status == Queued && (job.UrlJob? ==> r.audioPath == Mp3Path(r.id))
      modifies this
      ensures (Model(), res) == Ingestion.Create(env, old(Model()), r, job, persist)
      ensures Valid()
    {
      var ref := nextRef;
      objects := objects[ref := r];
      nextRef := nextRef + 1;
      ingestions := ingestions[r.id := ref];
      if persist.Some? {
        res := Failure(persist.value);
      } else {
        disk := WriteRecord(env, disk, r);
        workers := workers[r.id := Pending(job)];
        res := Success(ref);
      }
    }

    method CreateFromUpload(ownerId: string, file: UploadedFile, id: string, now: real,
                            persist: Option<JsError>) returns (res: Result<nat, JsError>)
      requires Valid() && id !in ingestions && id !in cancelled && id !in workers
      modifies this
      ensures (Model(), res) == Ingestion.CreateFromUpload(env, old(Model()), ownerId, file, id, now, persist)
      ensures Valid()
    {
      res := Create(NewRecord(id, ownerId, file.path, file.originalName, file.mimeType, now),
                    UploadJob, persist);
    }

    method CreateFromUrl(ownerId: string, url: string, id: string, now: real,
                         persist: Option<JsError>) returns (res: Result<nat, JsError>)
      requires Valid() && id !in ingestions && id !in cancelled && id !in workers
      modifies this
      ensures (Model(), res) == Ingestion.CreateFromUrl(env, old(Model()), ownerId, url, id, now, persist)
      ensures Valid()
    {
      res := Create(NewRecord(id, ownerId, Mp3Path(id), url, "audio/mpeg", now), UrlJob(url), persist);
    }

    /** `ask`: the closure for the question, rebuilt and kept when missing. */
    method Ask(ownerId: string, id: string, rebuilt: Result<AskFn, JsError>)
      returns (res: Result<Option<AskFn>, JsError>)
      requires Valid()
      modifies this
      ensures (Model(), res) == Ingestion.Ask(old(Model()), ownerId, id, rebuilt)
      ensures Valid()
    {
      var record := Ingestion.Get(Model(), ownerId, id);
      if record.None? || record.value.status != Ready {
        return Success(None);
      }
      var r := record.value;
      if r.ask.Some? {
        return Success(r.ask);
      }
      if r.transcriptPath.None? || r.transcriptPath.value == "" {
        return Success(None);
      }
      var text := ReadFile(disk, r.transcriptPath.value);
      if text.Failure? {
        return Failure(text.error);
      }
      if rebuilt.Failure? {
        return Failure(rebuilt.error);
      }
      objects := objects[ingestions[id] := r.(ask := Some(rebuilt.value))];
      res := Success(Some(rebuilt.value));
    }

    /** The worker's `catch`. */
    method Fail(id: string, e: JsError, now: real, persist: Option<JsError>)
      requires Valid() && RunningIn(Model(), id)
      modifies this
      ensures Model() == Ingestion.Fail(env, old(Model()), id, e, now, persist)
      ensures Valid()
    {
      var ref := workers[id].ref;
      var r := objects[ref].(ask := None, status := Error, error := Some(ErrorText(env.isProd, e)),
                             updatedAt := now);
      objects := objects[ref := r];
      workers := workers - {id};
      if id !in cancelled && id in ingestions && persist.None? {
        disk := WriteRecord(env, disk, r);
      }
    }

    method Start(id: string, now: real, persist: Option<JsError>)
      requires Valid() && id in workers && workers[id].Pending?
      modifies this
      ensures Model() == Ingestion.Start(env, old(Model()), id, now, persist)
      ensures Valid()
    {
      var job := workers[id].job;
      if id !in ingestions || id in cancelled {
        workers := workers - {id};
        return;
      }
      var ref := ingestions[id];
      var r := objects[ref].(status := Processing, updatedAt := now);
      objects := objects[ref := r];
      if persist.None? {
        disk := WriteRecord(env, disk, r);
        workers := workers[id := Running(job, ref, Started)];
      } else {
        workers := workers - {id};
      }
    }

    method ExtractAudio(id: string, extracted: Result<string, JsError>, now: real,
                        persist: Option<JsError>, catchPersist: Option<JsError>)
      requires Valid() && RunningIn(Model(), id)
      requires workers[id].job.UploadJob? && workers[id].stage == Started
      requires IsVideoMimeType(objects[workers[id].ref].audioMimeType)
      modifies this
      ensures Model() == Ingestion.ExtractAudio(env, old(Model()), id, extracted, now, persist, catchPersist)
      ensures Valid()
    {
      var w := workers[id];
      if extracted.Failure? {
        var e := extracted.error;
        Fail(id, if MissingBinary(e) then FfmpegMissing else e, now, catchPersist);
        return;
      }
      disk := disk[Mp3Path(id) := extracted.value];
      disk := Unlink(disk, objects[w.ref].audioPath);
      var r := objects[w.ref].(audioPath := Mp3Path(id), audioMimeType := "audio/mpeg", updatedAt := now);
      UpdateObjectInv(old(Model()), w.ref, r);
      objects := objects[w.ref := r];
      SetWorkerInv(old(Model()).(objects := objects), id, Running(w.job, w.ref, Prepared));
      workers := workers[id := Running(w.job, w.ref, Prepared)];
      DiskInv(old(Model()).(objects := objects, workers := workers), disk);
      if id !in cancelled {
        if persist.None? {
          disk := WriteRecord(env, disk, r);
        } else {
          Fail(id, persist.value, now, catchPersist);
        }
      }
    }

    method Download(id: string, downloaded: Result<string, JsError>, now: real,
                    catchPersist: Option<JsError>)
      requires Valid() && RunningIn(Model(), id)
      requires workers[id].job.UrlJob? && workers[id].stage == Started
      modifies this
      ensures Model() == Ingestion.Download(env, old(Model()), id, downloaded, now, catchPersist)
      ensures Valid()
    {
      var w := workers[id];
      if downloaded.Failure? {
        Fail(id, DownloadError(downloaded.error), now, catchPersist);
        return;
      }
      disk := disk[objects[w.ref].audioPath := downloaded.value];
      workers := workers[id := Running(w.job, w.ref, Prepared)];
    }

    method Transcribe(id: string, session: Result<Session, JsError>, now: real,
                      catchPersist: Option<JsError>)
      requires Valid() && RunningIn(Model(), id) && ReadyToTranscribe(Model(), id)
      modifies this
      ensures Model() == Ingestion.Transcribe(env, old(Model()), id, session, now, catchPersist)
      ensures Valid()
    {
      var w := workers[id];
      var audio := ReadFile(disk, objects[w.ref].audioPath);
      if audio.Failure? {
        Fail(id, audio.error, now, catchPersist);
        return;
      }
      if session.Failure? {
        Fail(id, session.error, now, catchPersist);
        return;
      }
      if id in cancelled || id !in ingestions {
        workers := workers - {id};
        return;
      }
      var sess := session.value;
      workers := workers[id := Running(w.job, w.ref, Transcribed(sess.ask, sess.transcriptText.GetOr("")))];
    }

    method WriteTranscript(id: string, written: Option<JsError>, now: real,
                           persist: Option<JsError>, catchPersist: Option<JsError>)
      requires Valid() && RunningIn(Model(), id) && workers[id].stage.Transcribed?
      modifies this
      ensures Model() == Ingestion.WriteTranscript(env, old(Model()), id, written, now, persist, catchPersist)
      ensures Valid()
    {
      var w := workers[id];
      if written.Some? {
        Fail(id, written.value, now, catchPersist);
        return;
      }
      var path := TranscriptFile(id);
      disk := disk[path := w.stage.text];
      var named := objects[w.ref].(transcriptPath := Some(path));
      UpdateObjectInv(old(Model()), w.ref, named);
      objects := objects[w.ref := named];
      DiskInv(old(Model()).(objects := objects), disk);
      if id !in cancelled && id in ingestions && persist.Some? {
        Fail(id, persist.value, now, catchPersist);
        return;
      }
      var r := named.(ask := Some(w.stage.ask), status := Ready, updatedAt := now);
      objects := objects[w.ref := r];
      workers := workers - {id};
      if id !in cancelled && id in ingestions {
        disk := WriteRecord(env, disk, r);
      }
    }
  }
}
