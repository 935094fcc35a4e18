/** `TabStore` of apps/server/src/tab-store.ts: the document in memory and the one on disk move together.  One
    mutation runs at a time, as `PromiseChains` shows for the tail that `enqueue` keeps. */
module TabStorage {
  import opened Collections
  import opened AtomicFiles
  import JsonText
  import T = TabDocuments

  const MAX_DOCUMENT_BYTES := 65536

  /** The text of a document is some function of it. */
  type Printer = T.Document -> seq<JsonText.Byte>

  class TabStore {
    const disk: Disk
    const sessionMaxCount: nat
    const text: Printer
    var document: Option<T.Document>
    var ready: bool

    constructor (disk: Disk, sessionMaxCount: nat, text: Printer)
      ensures this.disk == disk && this.sessionMaxCount == sessionMaxCount && this.text == text
      ensures document.None? && !ready
    {
      this.disk, this.sessionMaxCount, this.text := disk, sessionMaxCount, text;
      document, ready := None, false;
    }

    /** Memory holds what the disk holds. */
    ghost predicate InStep()
      reads this, disk
    {
      disk.Valid() && document.Some? && TargetIs(disk.files, text(document.value))
    }

    /** `syncDirectory`: whether the directory was synced, or cannot be. */
    method SyncDirectory() returns (ok: bool)
      requires disk.Valid()
      modifies disk
      ensures disk.Valid() && disk.files == old(disk.files) && disk.history == old(disk.history)
              && disk.open == old(disk.open)
    {
      var directory := disk.OpenRead();
      if !directory.Opened? {
        return false;
      }
      ok := Try();
      var closed := disk.Close(directory.handle);
      ok := ok && closed;
    }

    /** `persist`: memory changes exactly when the rename has happened; until then, and after any failure, the target is
        the old file.  A directory that cannot be synced costs only readiness. */
    method Persist(next: T.Document) returns (ok: bool)
      requires disk.Valid()
      modifies this, disk
      ensures disk.Valid() && disk.Grows() && disk.open == old(disk.open)
      ensures AllOldOrNew(old(disk.files), disk.history, |old(disk.history)|, text(next))
      ensures ok ==>
                && T.Wellformed(next) && document == Some(next)
                && disk.files == old(disk.files)[Target := File(text(next), true)]
      ensures !ok ==> document == old(document) && ready == old(ready) && Untouched(old(disk.files), disk.files)
      ensures !ok ==> AllUntouched(old(disk.files), disk.history, |old(disk.history)|)
    {
      if !T.Parsed(next).Next? || |text(next)| > MAX_DOCUMENT_BYTES {
        return false;
      }
      var c, t := WriteAndRename(disk, text(next), false);
      if !c.Fine? {
        var _ := CleanUp(disk, t, old(disk.files), old(disk.open));
        return false;
      }
      document := Some(next);
      ready := SyncDirectory();
      ok := true;
    }

    /** `initialize`, given the document read from the disk if there is one. */
    method Initialize(found: Option<T.Document>) returns (ok: bool)
      requires disk.Valid() && (found.Some? ==> TargetIs(disk.files, text(found.value)))
      modifies this, disk
      ensures disk.Valid() && disk.Grows()
      ensures ok <==> old(document).None? && document.Some?
      ensures ok ==> InStep() && (found.Some? ==> document == found)
      ensures old(document).Some? ==> document == old(document)
    {
      if document.Some? {
        return false;
      }
      if found.Some? {
        document, ready := found, true;
        return true;
      }
      ok := Persist(T.Document(0, []));
    }

    /** `mutate` with one of the operations: it succeeds with the document that the operation builds, in memory and on
        disk, or it fails and both keep the old one. */
    method Mutate(m: T.Mutation) returns (ok: bool)
      requires InStep()
      modifies this, disk
      ensures InStep() && disk.Grows() && disk.open == old(disk.open)
      ensures match T.Build(old(document).value, m, sessionMaxCount)
              case Rejected => !ok && document == old(document) && disk.history == old(disk.history)
              case Unchanged => ok && document == old(document) && disk.history == old(disk.history)
              case Next(d) =>
                && document == (if ok then Some(d) else old(document))
                && AllOldOrNew(old(disk.files), disk.history, |old(disk.history)|, text(d))
                && (if ok then disk.files == old(disk.files)[Target := File(text(d), true)]
                    else Untouched(old(disk.files), disk.files))
    {
      var built := T.Build(document.value, m, sessionMaxCount);
      match built
      case Rejected => ok := false;
      case Unchanged => ok := true;
      case Next(d) => ok := Persist(d);
    }
  }
}
