/** The file store (store.go:62-157): saving by temporary file and rename, loading,
    and the one-time migration of plain JSON files, with a failure or the death of
    the process possible at every step. */
module FileStore {
  import opened Basics
  import opened Model
  import opened StateDocument
  import opened BoardInvariants
  import opened FileFormat

  datatype Point =
    | ReadData | CreateBackup | WriteBackup | CloseBackup
    | MakeDir | CreateTemp | WriteTemp | SyncTemp | CloseTemp | BeforeRename | Rename | RemoveTemp

  /** How a step goes, if it is reached. `cut` is how much a write still writes, and
      whether another step takes effect before the process dies. */
  datatype Fate = Works | Fails(cut: nat) | Dies(cut: nat)

  type Fates = Point -> Fate

  ghost predicate Smooth(t: Fates) { forall p :: t(p).Works? }

  ghost predicate Survives(t: Fates) { forall p :: !t(p).Dies? }

  datatype Outcome = Written | Failed | Dead

  datatype LoadResult = Opened(board: State) | NotOpened | Died

  /** What a write leaves behind. */
  function Cut(b: Bytes, cut: nat): (r: Bytes)
    ensures r <= b
  {
    if cut <= |b| then b[..cut] else b
  }

  /** os.ReadFile reads into a buffer of at least this size. */
  const READ_BUFFER: nat := 512

  class DataDir {
    var files: map<string, Bytes>
    const path: string

    constructor (path: string)
      ensures this.path == path && files == map[]
    {
      this.path := path;
      files := map[];
    }

    function Backup(): string { path + ".bak" }

    predicate TempName(temp: string)
      reads this
    {
      temp !in files && temp != path && temp != Backup()
    }

    static method Step(t: Fates, at: Point) returns (r: Outcome)
      ensures r == if t(at).Fails? then Failed else if t(at).Dies? then Dead else Written
    {
      r := if t(at).Fails? then Failed else if t(at).Dies? then Dead else Written;
    }

    /** A file is closed after a failed write too, and only then is the failure returned. */
    static method CloseAnyway(t: Fates, at: Point, failed: Outcome) returns (r: Outcome)
      ensures r == if failed.Failed? && t(at).Dies? then Dead else failed
    {
      r := failed;
      if failed.Failed? {
        var closed := Step(t, at);
        if closed.Dead? { r := Dead; }
      }
    }

    method FillTemp(b: Bytes, temp: string, t: Fates) returns (r: Outcome)
      requires temp in files
      modifies this
      ensures temp in files && files - {temp} == old(files - {temp}) && files[temp] <= b
      ensures r.Written? ==> files[temp] == b
      ensures Smooth(t) ==> r.Written?
      ensures Survives(t) ==> !r.Dead?
    {
      r := Step(t, WriteTemp);
      files := files[temp := if r.Written? then b else Cut(b, t(WriteTemp).cut)];
      if !r.Written? {
        r := CloseAnyway(t, CloseTemp, r);
        return;
      }
      r := Step(t, SyncTemp);
      if !r.Written? {
        r := CloseAnyway(t, CloseTemp, r);
        return;
      }
      r := Step(t, CloseTemp);
      if !r.Written? { return; }
      r := Step(t, BeforeRename);
    }

    /** What runs when saveLocked returns; it finds nothing after a successful rename. */
    method RemoveLeftover(temp: string, t: Fates, done: Outcome) returns (r: Outcome)
      modifies this
      ensures files == old(files) || files == old(files) - {temp}
      ensures t(RemoveTemp).Works? ==> temp !in files
      ensures r == if t(RemoveTemp).Dies? then Dead else done
    {
      r := Step(t, RemoveTemp);
      if r.Written? || (r.Dead? && t(RemoveTemp).cut > 0) { files := files - {temp}; }
      if !r.Dead? { r := done; }
    }

    method RenameTemp(temp: string, t: Fates) returns (r: Outcome)
      requires temp in files && temp != path
      modifies this
      ensures files == old(files) || files == (old(files) - {temp})[path := old(files)[temp]]
      ensures r.Written? ==> files == (old(files) - {temp})[path := old(files)[temp]]
      ensures r.Failed? ==> files == old(files)
      ensures r == if t(Rename).Fails? then Failed else if t(Rename).Dies? then Dead else Written
    {
      r := Step(t, Rename);
      if r.Written? || (r.Dead? && t(Rename).cut > 0) {
        files := (files - {temp})[path := files[temp]];
      }
    }

    /** From the creation of the temporary file to its removal. */
    method ReplaceWith(b: Bytes, temp: string, t: Fates) returns (r: Outcome)
      requires TempName(temp)
      modifies this
      ensures r.Written? ==> files == old(files)[path := b]
      ensures r.Failed? ==> files - {temp} == old(files) && (t(RemoveTemp).Works? ==> files == old(files))
      ensures r.Dead? ==> files - {temp} == old(files) || files == old(files)[path := b]
      ensures temp in files ==> files[temp] <= b
      ensures Smooth(t) ==> r.Written?
      ensures Survives(t) ==> !r.Dead?
    {
      r := Step(t, CreateTemp);
      if r.Failed? || (r.Dead? && t(CreateTemp).cut == 0) { return; }
      files := files[temp := []];
      assert files - {temp} == old(files);
      if r.Dead? { return; }
      r := FillTemp(b, temp, t);
      if r.Dead? { return; }
      if r.Written? {
        r := RenameTemp(temp, t);
        if r.Dead? { return; }
      }
      r := RemoveLeftover(temp, t, r);
    }

    /** Replaces the data file as a whole or not at all, whichever steps fail and
        wherever the process dies. */
    method SaveLocked(c: Codec, st: StateRef, temp: string, t: Fates) returns (r: Outcome)
      requires TempName(temp)
      modifies this, st
      ensures st.v == Current(old(st.v))
      ensures r.Written? ==> files == old(files)[path := FileOf(Payload(c, st.v))]
      ensures r.Failed? ==> files - {temp} == old(files) && (t(RemoveTemp).Works? ==> files == old(files))
      ensures r.Dead? ==> files - {temp} == old(files) || files == old(files)[path := FileOf(Payload(c, st.v))]
      ensures temp in files ==> files[temp] <= FileOf(Payload(c, st.v))
      ensures Smooth(t) ==> r.Written?
      ensures Survives(t) ==> !r.Dead?
    {
      hide FileOf, Payload;
      var b := EncodeFile(c, st);
      assert b == FileOf(Payload(c, st.v)) by { CurrentTwice(c, old(st.v)); }
      r := Step(t, MakeDir);
      if r.Written? { r := ReplaceWith(b, temp, t); }
    }

    /** What a migration may leave of the other files: the backup is created at
        most, never overwritten. */
    ghost predicate BackupKept(before: map<string, Bytes>, after: map<string, Bytes>, legacy: Bytes) {
      if Backup() in before then Backup() in after && after[Backup()] == before[Backup()]
      else Backup() in after ==> after[Backup()] <= legacy
    }

    /** The original is still there, as the data file or as its new backup. */
    ghost predicate OriginalKept(before: map<string, Bytes>, after: map<string, Bytes>, legacy: Bytes) {
      || (path in after && after[path] == legacy)
      || (Backup() in after && (Backup() in before || after[Backup()] == legacy))
    }

    method WriteBackupFile(legacy: Bytes, t: Fates) returns (r: Outcome)
      requires Backup() !in files
      modifies this
      ensures files - {Backup()} == old(files) && (Backup() in files ==> files[Backup()] <= legacy)
      ensures r.Written? ==> Backup() in files && files[Backup()] == legacy
      ensures Smooth(t) ==> r.Written?
      ensures t(CreateBackup).Works? && t(WriteBackup) == Dies(0) ==> r.Dead? && files == old(files)[Backup() := []]
    {
      r := Step(t, CreateBackup);
      if !r.Written? { return; }
      r := Step(t, WriteBackup);
      files := files[Backup() := if r.Written? then legacy else Cut(legacy, t(WriteBackup).cut)];
      if r.Written? {
        r := Step(t, CloseBackup);
      } else {
        r := CloseAnyway(t, CloseBackup, r);
      }
    }

    method MigrateLocked(c: Codec, legacy: Bytes, st: StateRef, temp: string, t: Fates) returns (r: Outcome)
      requires TempName(temp) && path in files && files[path] == legacy && st.v.version == SCHEMA_VERSION
      modifies this, st
      ensures st.v == old(st.v)
      ensures r.Written? ==>
        files == old(files)[Backup() := if Backup() in old(files) then old(files)[Backup()] else legacy]
                 [path := FileOf(Payload(c, st.v))]
      ensures path in files && (files[path] == legacy || files[path] == FileOf(Payload(c, st.v)))
      ensures BackupKept(old(files), files, legacy) && OriginalKept(old(files), files, legacy)
      ensures Smooth(t) ==> r.Written?
      ensures Backup() !in old(files) && t(CreateBackup).Works? && t(WriteBackup) == Dies(0)
              ==> r.Dead? && files == old(files)[Backup() := []]
    {
      hide FileOf, Payload;
      assert Backup() != path by { assert |Backup()| == |path| + 4; }
      if Backup() !in files {
        r := WriteBackupFile(legacy, t);
        if !r.Written? {
          assert path in files - {Backup()};
          return;
        }
        assert path in files - {Backup()};
      }
      ghost var saved := files;
      r := SaveLocked(c, st, temp, t);
      if !r.Written? {
        assert path in saved && path in files;
        if files - {temp} == saved { assert files[path] == saved[path]; }
        assert Backup() in files && files[Backup()] == saved[Backup()];
      }
    }

    method Load(c: Codec, capacity: nat, temp: string, t: Fates) returns (r: LoadResult)
      requires TempName(temp) && capacity >= READ_BUFFER && (path in files ==> |files[path]| <= capacity)
      modifies this
      ensures !t(ReadData).Works? ==> !r.Opened? && files == old(files)
      ensures t(ReadData).Works? && path !in old(files) ==> r == Opened(NEW_STATE) && files == old(files)
      ensures t(ReadData).Works? && path in old(files) ==>
        var legacy := old(files)[path];
        match ReadFile(c, Slice(legacy, capacity))
        case Loaded(board, migrates) =>
          if migrates && !c.blank(legacy) then
            && path in files && (files[path] == legacy || files[path] == FileOf(Payload(c, board)))
            && BackupKept(old(files), files, legacy) && OriginalKept(old(files), files, legacy)
            && (r.Opened? ==>
                  (r.board == board
                   && files == old(files)[path + ".bak" := if path + ".bak" in old(files)
                                                           then old(files)[path + ".bak"] else legacy]
                               [path := FileOf(Payload(c, board))]))
            && (Smooth(t) ==> r.Opened?)
            && (Backup() !in old(files) && t(CreateBackup).Works? && t(WriteBackup) == Dies(0)
                ==> files == old(files)[path + ".bak" := []])
          else r == Opened(board) && files == old(files)
        case _ => r == NotOpened && files == old(files)
    {
      var done := Step(t, ReadData);
      if !done.Written? { return if done.Failed? then NotOpened else Died; }
      if path !in files { return Opened(NEW_STATE); }
      var legacy := files[path];
      var read := DecodeFile(c, Slice(legacy, capacity));
      hide FileOf, Payload, ReadFile;
      match read {
        case Loaded(board, migrates) =>
          if migrates && !c.blank(legacy) {
            LoadedIsValid(c, Slice(legacy, capacity));
            hide ValidState;
            var st := new StateRef(board);
            done := MigrateLocked(c, legacy, st, temp, t);
            return if done.Written? then Opened(board) else if done.Failed? then NotOpened else Died;
          }
          return Opened(board);
        case _ => return NotOpened;
      }
    }
  }

  lemma CurrentTwice(c: Codec, s: State)
    ensures Payload(c, Current(s)) == Payload(c, s)
  {
  }

  /** A migrated file is read back as the board it came from, in the new format. */
  lemma MigratedIsReadBack(c: Codec, legacy: Slice, capacity: nat)
    requires RoundTrips(c) && ReadFile(c, legacy).Loaded?
    requires var board := ReadFile(c, legacy).board;
      |c.marshal(board)| <= MAX_DECOMPRESSED && |Payload(c, board)| < TWO_64
    ensures var board := ReadFile(c, legacy).board;
      ReadFile(c, Slice(FileOf(Payload(c, board)), capacity)) == Loaded(Stripped(board), false)
  {
    LoadedIsValid(c, legacy);
    hide ValidState, ReadFile, FileOf, Payload, RoundTrips, Stripped;
    var board := ReadFile(c, legacy).board;
    assert Current(board) == board;
    RoundTrip(c, board, capacity);
  }

  /** A directory with a file to migrate and no backup yet. */
  ghost predicate Migrates(c: Codec, dir: DataDir, capacity: nat)
    reads dir
  {
    && dir.path in dir.files && dir.Backup() !in dir.files && !c.blank(dir.files[dir.path])
    && |dir.files[dir.path]| <= capacity
    && ReadFile(c, Slice(dir.files[dir.path], capacity)).Loaded?
    && ReadFile(c, Slice(dir.files[dir.path], capacity)).legacy
  }

  /** The process dies while it writes the backup. */
  method LoadAndDie(c: Codec, dir: DataDir, capacity: nat, temp: string)
    requires dir.TempName(temp) && capacity >= READ_BUFFER && Migrates(c, dir, capacity)
    modifies dir
    ensures dir.files == old(dir.files)[dir.Backup() := []]
  {
    hide ReadFile, FileOf, Payload, DataDir.BackupKept, Smooth;
    var killed: Fates := p => if p == WriteBackup then Dies(0) else Works;
    assert killed(ReadData).Works? && killed(CreateBackup).Works? && killed(WriteBackup) == Dies(0);
    var r := dir.Load(c, capacity, temp, killed);
  }

  /** The backup is not always the file that was replaced: after such a death, the
      next load migrates the file and leaves the broken backup beside it. */
  method InterruptedBackup(c: Codec, dir: DataDir, capacity: nat, temp: string) returns (r: LoadResult)
    requires dir.TempName(temp) && capacity >= READ_BUFFER && Migrates(c, dir, capacity)
    modifies dir
    ensures r == Opened(ReadFile(c, Slice(old(dir.files)[dir.path], capacity)).board)
    ensures dir.files == old(dir.files)[dir.Backup() := []][dir.path := FileOf(Payload(c, r.board))]
  {
    hide ReadFile, FileOf, Payload, DataDir.BackupKept;
    assert dir.Backup() != dir.path by { assert |dir.Backup()| == |dir.path| + 4; }
    var fine: Fates := p => Works;
    assert fine(ReadData).Works? && Smooth(fine);
    LoadAndDie(c, dir, capacity, temp);
    r := dir.Load(c, capacity, temp, fine);
  }
}
