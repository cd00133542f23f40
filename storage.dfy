/** The storage adapter of `src/utils/jobManager.ts` (lines 4-81): which of the
    three backends (localStorage, sessionStorage, an in-memory array) is
    active, how the job list is loaded from it and saved to it, and the
    automatic backup into localStorage.

    Browser storage is a map from key to stored value. Serialisation is taken
    as the identity: a key holds either plain text (a flag, or text that does
    not parse as the expected array) or a parsed array. */
module Storage {
  import opened Wrappers
  import opened JobTypes
  import opened Registry

  const JobsKey := "material-calculation-jobs"
  const StorageTypeKey := "mcjs-storage-type"
  const AutoBackupKey := "mcjs-auto-backup"
  const BackupKey := "mcjs-backup-jobs"

  /** What `getItem` finds under a key. */
  datatype Stored =
    | Text(text: string)
    | JobArray(jobs: seq<Job>)
    | ProjectArray(projects: seq<Category>)

  type Store = map<string, Stored>

  /** The text of a serialised array when it is read back as a flag: it is
      non-empty and none of the flag values the application compares with. */
  const ArrayText := "[...]"

  /** `store.getItem(key)` as a string, `None` for null. */
  function GetText(s: Store, key: string): Option<string> {
    if key !in s then None
    else match s[key]
      case Text(t) => Some(t)
      case _ => Some(ArrayText)
  }

  /** The browser: whether a window exists (false while rendering on the
      server) and the contents of its two storages. */
  class Browser {
    const hasWindow: bool
    var local: Store
    var session: Store

    constructor (hasWindow: bool, local: Store, session: Store)
      ensures this.hasWindow == hasWindow && this.local == local && this.session == session
    {
      this.hasWindow := hasWindow;
      this.local := local;
      this.session := session;
    }
  }

  /** A snapshot of everything the adapter reads and writes: the browser and
      the module's in-memory array `memoryStorage`. */
  datatype Backend = Backend(hasWindow: bool, local: Store, session: Store, memory: seq<Job>)

  /** `getStorageType()`: 'memory' without a window, otherwise the stored flag
      as it is (an unknown value is not rejected), 'localStorage' when the
      flag is absent or empty. */
  function StorageType(hasWindow: bool, local: Store): string {
    if !hasWindow then "memory"
    else match GetText(local, StorageTypeKey)
      case Some(t) => if t != "" then t else "localStorage"
      case None => "localStorage"
  }

  /** The adapter's reading of the auto-backup flag: on unless the flag is
      exactly 'false' (an absent flag means on). */
  function AdapterAutoBackup(local: Store): bool {
    GetText(local, AutoBackupKey) != Some("false")
  }

  /** The job list stored under the jobs key; an absent key, text that does
      not parse or a value of another shape reads as the empty list. */
  function ReadJobs(s: Store): seq<Job> {
    if JobsKey in s && s[JobsKey].JobArray? then s[JobsKey].jobs else []
  }

  /** `loadJobsFromStorage()`. */
  function LoadJobs(b: Backend): seq<Job> {
    if !b.hasWindow then []
    else
      var t := StorageType(b.hasWindow, b.local);
      if t == "memory" then b.memory
      else if t == "sessionStorage" then ReadJobs(b.session)
      else ReadJobs(b.local)
  }

  /** `saveJobsToStorage(jobs)`. */
  function SaveJobs(b: Backend, jobs: seq<Job>): Backend {
    if !b.hasWindow then b
    else
      var t := StorageType(b.hasWindow, b.local);
      if t == "memory" then b.(memory := jobs)
      else if t == "sessionStorage" then
        b.(session := b.session[JobsKey := JobArray(jobs)],
           local := if AdapterAutoBackup(b.local) then b.local[BackupKey := JobArray(jobs)] else b.local)
      else
        var local := b.local[JobsKey := JobArray(jobs)];
        b.(local := if AdapterAutoBackup(local) && t != "localStorage"
                    then local[BackupKey := JobArray(jobs)] else local)
  }

  // ---------------------------------------------------------------------------
  // Properties of the adapter

  /** Without a window, saving does nothing and loading gives the empty list. */
  lemma NoWindowIsInert(b: Backend, jobs: seq<Job>)
    requires !b.hasWindow
    ensures SaveJobs(b, jobs) == b && LoadJobs(b) == []
  {
  }

  /** In memory mode a save replaces the in-memory array and touches no
      browser key, and a load returns that array. */
  lemma MemoryMode(b: Backend, jobs: seq<Job>)
    requires b.hasWindow && GetText(b.local, StorageTypeKey) == Some("memory")
    ensures SaveJobs(b, jobs).local == b.local && SaveJobs(b, jobs).session == b.session
    ensures SaveJobs(b, jobs).memory == jobs
    ensures LoadJobs(b) == b.memory && LoadJobs(SaveJobs(b, jobs)) == jobs
  {
  }

  /** An absent, empty or unknown storage-type flag selects localStorage:
      loading reads the local jobs key, an absent key loads as the empty
      list, and saving writes the local jobs key and leaves sessionStorage
      and the in-memory array alone. */
  lemma UnknownFlagSelectsLocal(b: Backend, jobs: seq<Job>)
    requires b.hasWindow
    requires GetText(b.local, StorageTypeKey) !in {Some("sessionStorage"), Some("memory")}
    ensures LoadJobs(b) == ReadJobs(b.local)
    ensures JobsKey !in b.local ==> LoadJobs(b) == []
    ensures SaveJobs(b, jobs).local[JobsKey] == JobArray(jobs)
    ensures SaveJobs(b, jobs).session == b.session && SaveJobs(b, jobs).memory == b.memory
  {
  }

  /** With a flag that names no backend (say 'indexedDB'), the jobs go to
      localStorage and are still mirrored into the backup key, unlike with the
      flag 'localStorage' itself: the test is "type is not 'localStorage'",
      not "backend is not localStorage". */
  lemma UnknownFlagStillMirrors(b: Backend, jobs: seq<Job>)
    requires b.hasWindow && AdapterAutoBackup(b.local)
    ensures GetText(b.local, StorageTypeKey) == Some("indexedDB") ==>
      SaveJobs(b, jobs).local == b.local[JobsKey := JobArray(jobs)][BackupKey := JobArray(jobs)]
    ensures GetText(b.local, StorageTypeKey) == Some("localStorage") ==>
      SaveJobs(b, jobs).local == b.local[JobsKey := JobArray(jobs)]
  {
  }

  /** A session save writes the session jobs key and, unless the auto-backup
      flag is exactly 'false', the same list under the backup key in
      localStorage; nothing else changes. */
  lemma SessionSaveBacksUp(b: Backend, jobs: seq<Job>)
    requires b.hasWindow && GetText(b.local, StorageTypeKey) == Some("sessionStorage")
    ensures SaveJobs(b, jobs).session == b.session[JobsKey := JobArray(jobs)]
    ensures SaveJobs(b, jobs).local ==
      if GetText(b.local, AutoBackupKey) == Some("false") then b.local
      else b.local[BackupKey := JobArray(jobs)]
    ensures SaveJobs(b, jobs).memory == b.memory
    ensures LoadJobs(b) == ReadJobs(b.session)
  {
  }

  /** Saving never changes which backend is active or how the auto-backup flag
      reads: it writes only the jobs key and the backup key. */
  lemma SaveKeepsSettings(b: Backend, jobs: seq<Job>)
    ensures SaveJobs(b, jobs).hasWindow == b.hasWindow
    ensures GetText(SaveJobs(b, jobs).local, StorageTypeKey) == GetText(b.local, StorageTypeKey)
    ensures GetText(SaveJobs(b, jobs).local, AutoBackupKey) == GetText(b.local, AutoBackupKey)
  {
  }

  /** With a window, what was saved is what is loaded, whichever backend. */
  lemma SaveThenLoad(b: Backend, jobs: seq<Job>)
    requires b.hasWindow
    ensures LoadJobs(SaveJobs(b, jobs)) == jobs
  {
    SaveKeepsSettings(b, jobs);
  }

  /** Only the last of two saves is visible: the first leaves no trace. */
  lemma LastSaveWins(b: Backend, first: seq<Job>, second: seq<Job>)
    ensures SaveJobs(SaveJobs(b, first), second) == SaveJobs(b, second)
  {
    SaveKeepsSettings(b, first);
    if b.hasWindow {
      var t := StorageType(b.hasWindow, b.local);
      var b1 := SaveJobs(b, first);
      assert StorageType(b1.hasWindow, b1.local) == t;
      if t == "sessionStorage" {
        assert AdapterAutoBackup(b1.local) == AdapterAutoBackup(b.local);
      } else if t != "memory" {
        var local := b.local[JobsKey := JobArray(second)];
        assert AdapterAutoBackup(b1.local[JobsKey := JobArray(second)]) == AdapterAutoBackup(local);
        if AdapterAutoBackup(local) && t != "localStorage" {
          assert b1.local[JobsKey := JobArray(second)][BackupKey := JobArray(second)] ==
                 local[BackupKey := JobArray(second)];
        } else {
          assert b1.local[JobsKey := JobArray(second)] == local;
        }
      }
    }
  }

  /** Saving the list just loaded changes nothing a later load can see, and
      leaves the stored jobs value itself unchanged when there was one. */
  lemma SaveLoadedIsIdempotent(b: Backend)
    requires b.hasWindow
    ensures LoadJobs(SaveJobs(b, LoadJobs(b))) == LoadJobs(b)
    ensures var t := StorageType(b.hasWindow, b.local);
      t == "sessionStorage" && JobsKey in b.session && b.session[JobsKey].JobArray? ==>
        SaveJobs(b, LoadJobs(b)).session == b.session
    ensures var t := StorageType(b.hasWindow, b.local);
      t == "localStorage" && JobsKey in b.local && b.local[JobsKey].JobArray? ==>
        SaveJobs(b, LoadJobs(b)).local == b.local
  {
    SaveThenLoad(b, LoadJobs(b));
    var t := StorageType(b.hasWindow, b.local);
    if t == "sessionStorage" && JobsKey in b.session && b.session[JobsKey].JobArray? {
      assert b.session[JobsKey := JobArray(LoadJobs(b))] == b.session;
    }
    if t == "localStorage" && JobsKey in b.local && b.local[JobsKey].JobArray? {
      assert b.local[JobsKey := JobArray(LoadJobs(b))] == b.local;
    }
  }
}
