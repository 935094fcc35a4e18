/** The atomic replacement of a file: `SecureJsonFileService.replace`, `writeAll` and `readBounded` of
    apps/server/src/secure-json-file.ts, against a file system whose every call may fail. */
module AtomicFiles {
  import opened Collections
  import opened JsonText

  const TEMP_OPEN_ATTEMPTS := 8

  /** `synced` files survive a crash as they are; a file that is not may come back as anything. */
  datatype File = File(bytes: seq<Byte>, synced: bool)

  /** The target, the temporary files beside it by their random names, and everything else. */
  datatype Path = Target | Temp(name: nat) | Other(n: nat)

  type Files = map<Path, File>

  datatype OpenResult = Opened(handle: nat) | AlreadyExists | Absent | Symlink | OpenFailed

  // ---------------------------------------------------------------- what a crash may find

  /** Files other than the target and fresh temporaries are as before. */
  ghost predicate OthersKept(before: Files, now: Files) {
    && (forall p :: p in before && p != Target ==> p in now && now[p] == before[p])
    && (forall p :: p in now && p !in before ==> p == Target || p.Temp?)
  }

  ghost predicate TargetKept(before: Files, now: Files) {
    (Target in now <==> Target in before) && (Target in before ==> now[Target] == before[Target])
  }

  ghost predicate TargetIs(now: Files, bytes: seq<Byte>) {
    Target in now && now[Target] == File(bytes, true)
  }

  /** The target is the old one or, complete and on disk, the new one. */
  ghost predicate OldOrNew(before: Files, now: Files, bytes: seq<Byte>) {
    OthersKept(before, now) && (TargetKept(before, now) || TargetIs(now, bytes))
  }

  ghost predicate Untouched(before: Files, now: Files) {
    OthersKept(before, now) && TargetKept(before, now)
  }

  /** Every state that a crash could have left since position `from` of the history. */
  ghost predicate AllOldOrNew(before: Files, history: seq<Files>, from: nat, bytes: seq<Byte>) {
    forall i :: from <= i < |history| ==> OldOrNew(before, history[i], bytes)
  }

  ghost predicate AllUntouched(before: Files, history: seq<Files>, from: nat) {
    forall i :: from <= i < |history| ==> Untouched(before, history[i])
  }

  // ---------------------------------------------------------------- the file system

  class Disk {
    var files: Files
    var open: set<nat>                 // handles that nobody has tried to close
    var handles: nat
    ghost var history: seq<Files>      // every state so far

    ghost predicate Valid()
      reads this
    {
      history != [] && history[|history| - 1] == files && forall h :: h in open ==> h < handles
    }

    /** The history only grows. */
    twostate predicate Grows()
      reads this
    {
      |old(history)| <= |history| && history[..|old(history)|] == old(history)
    }

    constructor (files: Files)
      ensures Valid() && this.files == files && open == {}
    {
      this.files, open, handles, history := files, {}, 0, [files];
    }

    method NewHandle() returns (h: nat)
      requires Valid()
      modifies this
      ensures Valid() && files == old(files) && history == old(history)
      ensures h !in old(open) && open == old(open) + {h}
    {
      h := handles;
      open, handles := open + {h}, handles + 1;
    }

    /** Opens an existing file or directory for reading. */
    method OpenRead() returns (r: OpenResult)
      requires Valid()
      modifies this
      ensures Valid() && files == old(files) && history == old(history)
      ensures if r.Opened? then r.handle !in old(open) && open == old(open) + {r.handle} else open == old(open)
    {
      var answer: nat := *;
      if answer == 0 {
        var h := NewHandle();
        return Opened(h);
      }
      r := if answer == 1 then Absent else if answer == 2 then Symlink else OpenFailed;
    }

    /** Creates a file that must not exist (O_CREAT with O_EXCL). */
    method OpenExclusive(path: Path) returns (r: OpenResult)
      requires Valid()
      modifies this
      ensures Valid()
      ensures if r.Opened? then
                && r.handle !in old(open) && open == old(open) + {r.handle}
                && path !in old(files) && files == old(files)[path := File([], false)]
                && history == old(history) + [files]
              else open == old(open) && files == old(files) && history == old(history)
    {
      if path in files {
        return AlreadyExists;
      }
      var works: bool := *;
      if !works {
        return OpenFailed;
      }
      var h := NewHandle();
      files := files[path := File([], false)];
      history := history + [files];
      r := Opened(h);
    }

    /** Closing gives the handle up even if it reports an error. */
    method Close(h: nat) returns (ok: bool)
      requires Valid()
      modifies this
      ensures Valid() && files == old(files) && history == old(history) && open == old(open) - {h}
    {
      open := open - {h};
      ok := *;
    }

    /** Appends some of the bytes and reports a number, which is the true one if it is possible at all. */
    method Write(path: Path, bytes: seq<Byte>) returns (ok: bool, written: int)
      requires Valid() && path in files
      modifies this
      ensures Valid() && open == old(open) && history == old(history) + [files]
      ensures path in files && files == old(files)[path := files[path]] && !files[path].synced
      ensures ok && 0 < written <= |bytes| ==> files[path].bytes == old(files[path].bytes) + bytes[..written]
    {
      ok, written := *, *;
      var some: nat := *;
      var count := if 0 <= written <= |bytes| then written else if 0 <= some <= |bytes| then some else 0;
      files := files[path := File(files[path].bytes + bytes[..count], false)];
      history := history + [files];
    }

    method Sync(path: Path) returns (ok: bool)
      requires Valid() && path in files
      modifies this
      ensures Valid() && open == old(open) && history == old(history) + [files]
      ensures path in files && files == old(files)[path := files[path]] && files[path].bytes == old(files[path].bytes)
      ensures ok ==> files[path].synced
    {
      ok := *;
      files := files[path := File(files[path].bytes, ok || files[path].synced)];
      history := history + [files];
    }

    /** Atomic: it happens or it does not. */
    method Rename(from: Path, to: Path) returns (ok: bool)
      requires Valid() && from in files && from != to
      modifies this
      ensures Valid() && open == old(open) && history == old(history) + [files]
      ensures files == if ok then (old(files) - {from})[to := old(files[from])] else old(files)
    {
      ok := *;
      if ok {
        files := (files - {from})[to := files[from]];
      }
      history := history + [files];
    }

    method Unlink(path: Path) returns (ok: bool)
      requires Valid()
      modifies this
      ensures Valid() && open == old(open) && history == old(history) + [files]
      ensures files == if ok then old(files) - {path} else old(files)
    {
      ok := *;
      if ok {
        files := files - {path};
      }
      history := history + [files];
    }
  }

  /** A call whose outcome leaves nothing behind (stat, chmod, directory sync). */
  method Try() returns (ok: bool) {
    ok := *;
  }

  // ---------------------------------------------------------------- the loops

  /** Since position `from` nothing but the file at `path` changed. */
  ghost predicate AllWithin(before: Files, path: Path, history: seq<Files>, from: nat) {
    forall i :: from <= i < |history| ==> Within(before, path, history[i])
  }

  ghost predicate Within(before: Files, path: Path, now: Files) {
    path in now && now == before[path := now[path]]
  }

  /** `writeAll`: on success the file has got exactly the bytes, in order, however many writes that took. */
  method WriteAll(disk: Disk, path: Path, bytes: seq<Byte>) returns (ok: bool)
    requires disk.Valid() && path in disk.files && disk.files[path].bytes == []
    modifies disk
    ensures disk.Valid() && disk.open == old(disk.open) && disk.Grows()
    ensures Within(old(disk.files), path, disk.files)
            && AllWithin(old(disk.files), path, disk.history, |old(disk.history)|)
    ensures ok ==> disk.files[path].bytes == bytes
  {
    var offset := 0;
    while offset < |bytes|
      invariant offset <= |bytes|
      invariant disk.Valid() && disk.open == old(disk.open) && disk.Grows()
      invariant Within(old(disk.files), path, disk.files)
                && AllWithin(old(disk.files), path, disk.history, |old(disk.history)|)
      invariant disk.files[path].bytes == bytes[..offset]
    {
      var done, written := disk.Write(path, bytes[offset..]);
      if !done || written <= 0 || written > |bytes| - offset {
        return false;
      }
      assert bytes[..offset] + bytes[offset..][..written] == bytes[..offset + written];
      offset := offset + written;
    }
    ok := true;
  }

  /** A file answer for reading: what is left of it, unless reading fails. */
  class Reader {
    var left: seq<Byte>

    constructor (content: seq<Byte>)
      ensures left == content
    {
      left := content;
    }

    /** Fills part of the buffer from `offset` on and reports how much; zero means the end of the file. */
    method Read(buffer: array<Byte>, offset: nat) returns (ok: bool, bytesRead: int)
      requires offset < buffer.Length
      modifies this, buffer
      ensures ok && 0 <= bytesRead <= buffer.Length - offset ==>
                && bytesRead <= |old(left)| && (bytesRead == 0 ==> old(left) == [])
                && left == old(left)[bytesRead..]
                && buffer[..offset + bytesRead] == old(buffer[..offset]) + old(left)[..bytesRead]
    {
      var count: nat := *;
      if !(0 < count <= |left| && count <= buffer.Length - offset) {
        count := if |left| <= buffer.Length - offset then |left| else buffer.Length - offset;
      }
      for k := 0 to count
        invariant left == old(left)
        invariant buffer[..offset] == old(buffer[..offset]) && buffer[offset..offset + k] == left[..k]
      {
        buffer[offset + k] := left[k];
        assert left[..k + 1] == left[..k] + [left[k]];
      }
      left := left[count..];
      ok, bytesRead := true, count;
      var breaks: nat := *;
      if breaks == 1 {
        ok := false;
      } else if breaks == 2 {
        bytesRead := -1;
      } else if breaks == 3 {
        bytesRead := buffer.Length - offset + 1;
      }
      assert buffer[..offset + count] == buffer[..offset] + buffer[offset..offset + count];
    }
  }

  /** `readBounded`: the whole file if it has at most `maximumBytes` bytes and no read fails, and never a part of it. */
  method ReadBounded(reader: Reader, maximumBytes: nat) returns (r: Option<seq<Byte>>)
    modifies reader
    ensures r.Some? ==> r.value == old(reader.left) && |r.value| <= maximumBytes
    ensures |old(reader.left)| > maximumBytes ==> r.None?
  {
    var buffer := new Byte[maximumBytes + 1];
    var offset := 0;
    ghost var content := reader.left;
    while offset < buffer.Length
      invariant offset <= buffer.Length
      invariant buffer[..offset] + reader.left == content
    {
      var ok, bytesRead := reader.Read(buffer, offset);
      if !ok || bytesRead < 0 || bytesRead > buffer.Length - offset {
        return None;
      }
      if bytesRead == 0 {
        break;
      }
      offset := offset + bytesRead;
    }
    if offset > maximumBytes {
      return None;
    }
    r := Some(buffer[..offset]);
  }

  // ---------------------------------------------------------------- replace

  datatype Check = Fine | SecurityFailure | Failure

  datatype ReplaceResult = Threw | NotCommitted | Committed | DurabilityUncertain

  /** `openValidatedParent`; on failure the handle has been given up. */
  method OpenValidatedParent(disk: Disk) returns (parent: Option<nat>)
    requires disk.Valid()
    modifies disk
    ensures disk.Valid() && disk.files == old(disk.files) && disk.history == old(disk.history)
    ensures if parent.Some? then parent.value !in old(disk.open) && disk.open == old(disk.open) + {parent.value}
            else disk.open == old(disk.open)
  {
    var answer := disk.OpenRead();
    if !answer.Opened? {
      return None;
    }
    var safe := Try();
    if !safe {
      var _ := disk.Close(answer.handle);
      return None;
    }
    parent := Some(answer.handle);
  }

  /** `validateExistingTarget`. */
  method ValidateExistingTarget(disk: Disk) returns (c: Check)
    requires disk.Valid()
    modifies disk
    ensures disk.Valid() && disk.files == old(disk.files) && disk.history == old(disk.history)
            && disk.open == old(disk.open)
  {
    var answer := disk.OpenRead();
    match answer {
      case Absent => return Fine;
      case Symlink => return SecurityFailure;
      case AlreadyExists => return Failure;
      case OpenFailed => return Failure;
      case Opened(h) =>
        var statted, valid := *, *;
        c := if !statted then Failure else if !valid then SecurityFailure else Fine;
        var closed := disk.Close(h);
        if !closed && c.Fine? {
          c := Failure;
        }
    }
  }

  /** What the first part of the attempt leaves behind. */
  datatype TempState = TempState(name: nat, owned: bool, handle: Option<nat>)

  /** The temporary file, if owned, is the only change, and its handle the only one added. */
  ghost predicate Pending(before: Files, now: Files, openBefore: set<nat>, open: set<nat>, t: TempState) {
    && openBefore <= open <= openBefore + (if t.handle.Some? then {t.handle.value} else {})
    && (t.handle.Some? ==> t.owned && t.handle.value !in openBefore)
    && if t.owned then Temp(t.name) !in before && Within(before, Temp(t.name), now) else now == before
  }

  /** Allocates a temporary file under a name that nothing has. */
  method OpenTemp(disk: Disk) returns (t: TempState)
    requires disk.Valid()
    modifies disk
    ensures disk.Valid() && disk.Grows() && AllUntouched(old(disk.files), disk.history, |old(disk.history)|)
    ensures Pending(old(disk.files), disk.files, old(disk.open), disk.open, t)
    ensures t.owned ==> t.handle.Some? && disk.files[Temp(t.name)].bytes == []
  {
    t := TempState(0, false, None);
    for attempt := 0 to TEMP_OPEN_ATTEMPTS
      invariant disk.Valid() && disk.files == old(disk.files) && disk.history == old(disk.history)
                && disk.open == old(disk.open)
      invariant !t.owned && t.handle.None?
    {
      var name: nat := *;
      var answer := disk.OpenExclusive(Temp(name));
      if answer.Opened? {
        return TempState(name, true, Some(answer.handle));
      }
      if !answer.AlreadyExists? {
        return;
      }
    }
  }

  lemma WithinTempIsUntouched(before: Files, now: Files, name: nat)
    requires Temp(name) !in before && Within(before, Temp(name), now)
    ensures Untouched(before, now)
  {
  }

  /** Fills, syncs and closes the temporary file; `strict` callers set its mode and check it first. */
  method FillTemp(disk: Disk, bytes: seq<Byte>, strict: bool, t: TempState, ghost before: Files,
                  ghost openBefore: set<nat>, ghost from: nat)
    returns (ok: bool, u: TempState)
    requires disk.Valid() && t.owned && t.handle.Some? && Pending(before, disk.files, openBefore, disk.open, t)
    requires disk.files[Temp(t.name)].bytes == [] && AllUntouched(before, disk.history, from) && from <= |disk.history|
    modifies disk
    ensures disk.Valid() && disk.Grows() && AllUntouched(before, disk.history, from)
    ensures Pending(before, disk.files, openBefore, disk.open, u) && u.owned && u.name == t.name
    ensures ok ==> disk.files[Temp(t.name)] == File(bytes, true) && u.handle.None?
  {
    u := t;
    var path := Temp(t.name);
    var moded := Try();
    var valid := Try();
    if strict && (!moded || !valid) {
      return false, u;
    }
    ok := WriteAll(disk, path, bytes);
    assert Within(before, path, disk.files);
    forall i | from <= i < |disk.history|
      ensures Untouched(before, disk.history[i])
    {
      if i >= |old(disk.history)| {
        assert Within(old(disk.files), path, disk.history[i]);
        WithinTempIsUntouched(before, disk.history[i], t.name);
      } else {
        assert disk.history[i] == old(disk.history)[i];
      }
    }
    if !ok {
      return;
    }
    ok := disk.Sync(path);
    WithinTempIsUntouched(before, disk.files, t.name);
    if !ok {
      return;
    }
    ok := disk.Close(t.handle.value);
    if ok {
      u := t.(handle := None);
    }
  }

  /** The attempt up to the rename; `strict` callers look at the target once more. */
  method WriteAndRename(disk: Disk, bytes: seq<Byte>, strict: bool) returns (c: Check, t: TempState)
    requires disk.Valid()
    modifies disk
    ensures disk.Valid() && disk.Grows() && AllOldOrNew(old(disk.files), disk.history, |old(disk.history)|, bytes)
    ensures c.Fine? ==> disk.files == old(disk.files)[Target := File(bytes, true)] && disk.open == old(disk.open)
    ensures !c.Fine? ==> Pending(old(disk.files), disk.files, old(disk.open), disk.open, t)
    ensures !c.Fine? ==> AllUntouched(old(disk.files), disk.history, |old(disk.history)|)
  {
    ghost var before, from := disk.files, |disk.history|;
    t := OpenTemp(disk);
    if !t.owned {
      return Failure, t;
    }
    var ok;
    ok, t := FillTemp(disk, bytes, strict, t, before, old(disk.open), from);
    if !ok {
      return Failure, t;
    }
    c := Fine;
    if strict {
      c := ValidateExistingTarget(disk);
      if !c.Fine? {
        return;
      }
    }
    assert disk.files - {Temp(t.name)} == before;
    ok := disk.Rename(Temp(t.name), Target);
    if !ok {
      WithinTempIsUntouched(before, disk.files, t.name);
      return Failure, t;
    }
    assert TargetIs(disk.files, bytes) && OthersKept(before, disk.files);
  }

  /** Closes and removes what the failed attempt left; every step is tried. */
  method CleanUp(disk: Disk, t: TempState, ghost before: Files, ghost openBefore: set<nat>) returns (clean: bool)
    requires disk.Valid() && Pending(before, disk.files, openBefore, disk.open, t)
    modifies disk
    ensures disk.Valid() && disk.Grows() && disk.open == openBefore
    ensures clean ==> disk.files == before
    ensures Untouched(before, disk.files) && AllUntouched(before, disk.history, |old(disk.history)|)
  {
    clean := true;
    if t.owned {
      WithinTempIsUntouched(before, disk.files, t.name);
    }
    if t.handle.Some? {
      clean := disk.Close(t.handle.value);
    }
    if t.owned {
      assert disk.files - {Temp(t.name)} == before;
      var removed := disk.Unlink(Temp(t.name));
      clean := clean && removed;
    }
  }

  /** `replace`, given the serialized value (None if the path, the mode or the value is refused).  Whenever the process
      stops, the target is the old file or the complete new one; `NotCommitted` leaves nothing behind; a commit changes
      the target only; no handle stays open. */
  method Replace(disk: Disk, serialized: Option<seq<Byte>>) returns (r: ReplaceResult)
    requires disk.Valid()
    modifies disk
    ensures disk.Valid() && disk.Grows() && disk.open == old(disk.open)
    ensures serialized.None? ==> r.Threw? && disk.history == old(disk.history) && disk.files == old(disk.files)
    ensures serialized.Some? ==> AllOldOrNew(old(disk.files), disk.history, |old(disk.history)|, serialized.value)
    ensures r.Committed? || r.DurabilityUncertain? ==>
              serialized.Some? && disk.files == old(disk.files)[Target := File(serialized.value, true)]
    ensures r.NotCommitted? ==> disk.files == old(disk.files)
    ensures r.NotCommitted? || r.Threw? ==> AllUntouched(old(disk.files), disk.history, |old(disk.history)|)
    ensures r.Threw? ==> Untouched(old(disk.files), disk.files)
  {
    if serialized.None? {
      return Threw;
    }
    var parent := OpenValidatedParent(disk);
    if parent.None? {
      return Threw;
    }
    var target := ValidateExistingTarget(disk);
    if !target.Fine? {
      var _ := disk.Close(parent.value);
      return Threw;
    }
    ghost var open := disk.open;
    var c, t := WriteAndRename(disk, serialized.value, true);
    if !c.Fine? {
      var clean := CleanUp(disk, t, old(disk.files), open);
      var closed := disk.Close(parent.value);
      return if c.SecurityFailure? || !clean || !closed then Threw else NotCommitted;
    }
    var durable := Try();
    var closed := disk.Close(parent.value);
    r := if durable && closed then Committed else DurabilityUncertain;
  }
}
