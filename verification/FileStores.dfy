/** The file tables as an object (`src/aleph/handlers/content/store.py`, `src/aleph/db/accessors/files.py`,
    `src/aleph/services/storage/garbage_collector.py`). */
module FileStores {
  import opened Wrappers
  import opened Records
  import opened Files

  class FileStore {
    var files: set<Hash>
    var messagePins: map<Hash, MessagePin>
    var contentPins: map<Hash, ContentPin>
    var txPins: set<TxPin>
    var gracePins: set<GracePin>
    var tags: map<string, TagRow>
    const grace: nat

    function Contents(): FileTables
      reads this
    {
      FileTables(files, messagePins, contentPins, txPins, gracePins, tags)
    }

    constructor (grace: nat)
      ensures Contents() == FileTables({}, map[], map[], {}, {}, map[]) && this.grace == grace
    {
      files, messagePins, contentPins, txPins, gracePins, tags := {}, map[], map[], {}, {}, map[];
      this.grace := grace;
    }

    method Restore(t: FileTables)
      modifies this
      ensures Contents() == t
    {
      files, messagePins, contentPins := t.files, t.messagePins, t.contentPins;
      txPins, gracePins, tags := t.txPins, t.gracePins, t.tags;
    }

    method UpsertFile(file: Hash)
      modifies `files
      ensures files == old(files) + {file}
    {
      files := files + {file};
    }

    /** The pin of a message's own content; the item hash is unique among the pins. */
    method InsertContentPin(h: Hash, m: Message) returns (r: Result<(), ProcessingError>)
      modifies `contentPins
      ensures if h in old(contentPins) then r == Err(Database)
              else r == Ok(()) && contentPins == old(contentPins)[h := ContentPin(h, m.sender, m.time)]
    {
      if h in contentPins {
        return Err(Database);
      }
      contentPins := contentPins[h := ContentPin(h, m.sender, m.time)];
      r := Ok(());
    }

    method UpsertFileTag(tag: string, owner: Address, file: Hash, lastUpdated: Time)
      modifies `tags
      ensures tags == TagUpserted(old(tags), tag, TagRow(owner, file, lastUpdated))
    {
      if tag !in tags {
        tags := tags[tag := TagRow(owner, file, lastUpdated)];
      } else if tags[tag].lastUpdated < lastUpdated {
        tags := tags[tag := tags[tag].(file := file, lastUpdated := lastUpdated)];
      }
    }

    method PinAndTagFile(h: Hash, m: Message) returns (r: Result<(), ProcessingError>)
      requires m.content.Store?
      modifies this
      ensures match Pinned(old(Contents()), h, m)
              case Ok(t) => r == Ok(()) && Contents() == t
              case Err(e) => r == Err(e)
    {
      if m.content.file !in files || h in messagePins {
        return Err(Database);
      }
      messagePins := messagePins[h := PinOf(m)];
      UpsertFileTag(MakeFileTag(m.address, m.content.ref, h), m.address, m.content.file, m.time);
      r := Ok(());
    }

    /** Deletes the tag and computes it again from the pins that refer to it. */
    method RefreshFileTag(tag: string) returns (r: Result<(), ProcessingError>)
      modifies `tags
      ensures match TagRefreshed(old(Contents()), tag)
              case Ok(t) => r == Ok(()) && Contents() == t
              case Err(e) => r == Err(e)
    {
      ghost var before := tags;
      var newest := NewestPins(messagePins, tag);
      tags := tags - {tag};
      if newest == {} {
        return Ok(());
      }
      if |newest| > 1 {
        return Err(Database);
      }
      SingletonMember(newest);
      var h :| h in newest;
      tags := tags[tag := TagRow(messagePins[h].owner, messagePins[h].file, messagePins[h].created)];
      assert tags == before[tag := TagRow(messagePins[h].owner, messagePins[h].file, messagePins[h].created)];
      r := Ok(());
    }

    /** A file without any pin left gets a grace period. */
    method CheckRemainingPins(file: Hash, typeMatches: bool, now: Time) returns (r: Result<(), ProcessingError>)
      modifies `gracePins
      ensures if IsPinned(old(Contents()), file) then r == Ok(()) && gracePins == old(gracePins)
              else if !typeMatches then r == Err(Internal)
              else r == Ok(()) && gracePins == old(gracePins) + {GracePin(file, now, now + grace)}
    {
      if IsPinned(Contents(), file) {
        return Ok(());
      }
      if !typeMatches {
        return Err(Internal);
      }
      gracePins := gracePins + {GracePin(file, now, now + grace)};
      r := Ok(());
    }

    method ForgetMessage(h: Hash, m: Message, now: Time) returns (r: Result<(), ProcessingError>)
      requires m.content.Store?
      modifies this
      ensures match Forgotten(old(Contents()), h, m, now, grace)
              case Ok(t) => r == Ok(()) && Contents() == t
              case Err(e) => r == Err(e)
    {
      messagePins := messagePins - {h};
      r := RefreshFileTag(MakeFileTag(m.address, m.content.ref, h));
      if r.Err? {
        return;
      }
      r := CheckRemainingPins(m.content.file, m.content.typeMatches, now);
    }

    /** The garbage collector: drops the outdated grace pins, lists the files without a pin, and deletes them one by
        one.  The database refuses to delete a file that a tag names, which ends the loop with an error and keeps
        what is already deleted. */
    method Collect(d: Time) returns (r: Result<(), ProcessingError>, deleted: set<Hash>)
      modifies this
      ensures Contents() == Expired(old(Contents()), d).(files := old(files) - deleted)
      ensures deleted <= Unpinned(Expired(old(Contents()), d))
      ensures forall tag :: tag in old(tags) ==> old(tags)[tag].file !in deleted
      ensures r.Ok? <==> forall tag :: tag in old(tags) ==>
                old(tags)[tag].file !in Unpinned(Expired(old(Contents()), d))
      ensures r.Ok? ==> Contents() == Collected(old(Contents()), d)
    {
      hide IsPinned;
      gracePins := set p | p in gracePins && !(p.deleteBy < d);
      ghost var t1 := Contents();
      var toDelete := Unpinned(Contents());
      var left := toDelete;
      deleted := {};
      while left != {}
        invariant left <= toDelete && deleted == toDelete - left
        invariant Contents() == t1.(files := t1.files - deleted)
        invariant forall tag :: tag in tags ==> tags[tag].file !in deleted
        decreases |left|
      {
        var file :| file in left;
        if exists tag :: tag in tags && tags[tag].file == file {
          return Err(Database), deleted;
        }
        files := files - {file};
        deleted := deleted + {file};
        left := left - {file};
      }
      r := Ok(());
    }
  }
}
