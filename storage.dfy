/** The persisted session registry: every operation except `RemoveIfStale`
    starts by loading the state file; `insert`, `Stop` and `deleteEntry` then
    change the services map of the loaded `Storage` in place and save it,
    while `Get` and `All` only read. `RemoveIfStale` loads and writes only
    through the `deleteEntry` it calls. */
module Storage {
  import opened Paths
  import opened Sessions

  /** The schema version written into a fresh state. */
  const Version: string := "1.0"

  /** The decoded state file. An empty `version` stands for a file in which
      the version key is absent. */
  datatype Document = Document(version: string, services: map<string, Service>)

  /** What a file holds, as far as loading is concerned. */
  datatype FileContent = Unreadable | Garbage | Encoded(doc: Document)

  /** The parts of the environment an operation consults: the configuration
      home, the working directory (`None` when it cannot be determined) and
      whether the next write of the state file fails. */
  datatype Env = Env(home: string, cwd: Option<string>, writeFails: bool)

  /** The error an operation returns and the files it leaves behind. */
  datatype Outcome = Outcome(err: Option<Error>, files: map<string, FileContent>)

  /** The local file system: regular files with their contents, and directories. */
  class FileSystem {
    var files: map<string, FileContent>
    var dirs: set<string>
  }

  /** Whether `os.Stat` finds something at `p`. */
  predicate PathExists(files: map<string, FileContent>, dirs: set<string>, p: string)
  {
    p in files || p in dirs
  }

  /** What `load` yields for the state file at `path`. */
  function LoadSpec(files: map<string, FileContent>, dirs: set<string>, path: string): (r: Result<Document>)
    ensures !PathExists(files, dirs, path) ==> r == Ok(Document(Version, map[]))
    ensures PathExists(files, dirs, path) && (path !in files || files[path].Unreadable?) ==>
              r == Err(ReadFailed(path))
    ensures path in files && files[path].Garbage? ==> r == Err(UnmarshalFailed)
    ensures path in files && files[path].Encoded? ==>
              r.Ok? && r.value.services == files[path].doc.services &&
              (files[path].doc.version != "" ==> r.value.version == files[path].doc.version)
    ensures r.Ok? ==> r.value.version != ""
  {
    if !PathExists(files, dirs, path) then Ok(Document(Version, map[]))
    else if path !in files then Err(ReadFailed(path))
    else match files[path]
      case Unreadable => Err(ReadFailed(path))
      case Garbage => Err(UnmarshalFailed)
      case Encoded(d) => Ok(Document(if d.version == "" then Version else d.version, d.services))
  }

  /** What `save` does: the document replaces the file unless the write fails. */
  function SaveSpec(files: map<string, FileContent>, path: string, doc: Document, writeFails: bool): (o: Outcome)
  {
    if writeFails then Outcome(Some(WriteFailed(path)), files)
    else Outcome(None, files[path := Encoded(doc)])
  }

  /** Saves the loaded document with the services map an update leaves. */
  function SaveUpdate(files: map<string, FileContent>, path: string, doc: Document, u: Update, writeFails: bool): (o: Outcome)
  {
    match u
    case Unchanged => Outcome(None, files)
    case Updated(m) => SaveSpec(files, path, Document(doc.version, m), writeFails)
  }

  /** What `insert` does. */
  function InsertSpec(files: map<string, FileContent>, dirs: set<string>, env: Env,
                      namespace: string, dev: Dev, host: string): (o: Outcome)
  {
    var path := StatePath(env.home);
    match LoadSpec(files, dirs, path)
    case Err(e) => Outcome(Some(e), files)
    case Ok(doc) =>
      match NewService(dev.source, host, env.cwd)
      case Err(e) => Outcome(Some(e), files)
      case Ok(svc) =>
        match InsertEntry(doc.services, GetFullName(namespace, dev), svc)
        case Err(e) => Outcome(Some(e), files)
        case Ok(u) => SaveUpdate(files, path, doc, u, env.writeFails)
  }

  /** What `Get` returns for a key. */
  function GetSpec(files: map<string, FileContent>, dirs: set<string>, home: string, key: string): (r: Result<Service>)
  {
    match LoadSpec(files, dirs, StatePath(home))
    case Err(e) => Err(e)
    case Ok(doc) => Lookup(doc.services, key)
  }

  /** What `Stop` does to a key. */
  function StopSpec(files: map<string, FileContent>, dirs: set<string>, env: Env, key: string): (o: Outcome)
  {
    var path := StatePath(env.home);
    match LoadSpec(files, dirs, path)
    case Err(e) => Outcome(Some(e), files)
    case Ok(doc) => SaveUpdate(files, path, doc, StopEntry(doc.services, key), env.writeFails)
  }

  /** What `deleteEntry` does to a key. */
  function DeleteSpec(files: map<string, FileContent>, dirs: set<string>, env: Env, key: string): (o: Outcome)
  {
    var path := StatePath(env.home);
    match LoadSpec(files, dirs, path)
    case Err(e) => Outcome(Some(e), files)
    case Ok(doc) => SaveSpec(files, path, Document(doc.version, RemoveEntry(doc.services, key)), env.writeFails)
  }

  /** What `RemoveIfStale` reports and the files it leaves: the entry is
      evicted when its derived session folder is gone or its sync daemon is
      not running there. */
  function StaleSpec(files: map<string, FileContent>, dirs: set<string>, env: Env,
                     syncthingExists: string -> bool, key: string): (r: (bool, map<string, FileContent>))
  {
    match GetServiceFolder(env.home, key)
    case Err(_) => (false, files)
    case Ok(folder) =>
      if !PathExists(files, dirs, folder) || !syncthingExists(folder)
      then (true, DeleteSpec(files, dirs, env, key).files)
      else (false, files)
  }

  /** The in-memory state of one operation, as loaded from the state file. */
  class Storage {
    var path: string
    var version: string
    var services: map<string, Service>

    constructor (path: string, version: string, services: map<string, Service>)
      ensures this.path == path && this.version == version && this.services == services
    {
      this.path := path;
      this.version := version;
      this.services := services;
    }

    /** The document this state encodes to. */
    function Snapshot(): (doc: Document)
      reads this
    {
      Document(version, services)
    }

    /** `save`: overwrite the state file with this state. */
    method Save(fs: FileSystem, writeFails: bool) returns (err: Option<Error>)
      modifies fs
      ensures Outcome(err, fs.files) == SaveSpec(old(fs.files), path, Snapshot(), writeFails)
      ensures fs.dirs == old(fs.dirs)
    {
      if writeFails {
        return Some(WriteFailed(path));
      }
      fs.files := fs.files[path := Encoded(Snapshot())];
      return None;
    }
  }

  /** `load`: a fresh state with the defaults, overwritten by what the state
      file decodes to; a missing file is an empty registry. */
  method Load(fs: FileSystem, home: string) returns (r: Result<Storage>)
    ensures LoadSpec(fs.files, fs.dirs, StatePath(home)).Err? ==>
              r == Err(LoadSpec(fs.files, fs.dirs, StatePath(home)).error)
    ensures LoadSpec(fs.files, fs.dirs, StatePath(home)).Ok? ==>
              r.Ok? && fresh(r.value) && r.value.path == StatePath(home) &&
              r.value.Snapshot() == LoadSpec(fs.files, fs.dirs, StatePath(home)).value
  {
    var path := StatePath(home);
    var s := new Storage(path, Version, map[]);
    if !PathExists(fs.files, fs.dirs, path) {
      return Ok(s);
    }
    if path !in fs.files {
      return Err(ReadFailed(path));
    }
    match fs.files[path]
    case Unreadable =>
      return Err(ReadFailed(path));
    case Garbage =>
      return Err(UnmarshalFailed);
    case Encoded(doc) =>
      if doc.version != "" {
        s.version := doc.version;
      }
      s.services := doc.services;
      return Ok(s);
  }

  /** `insert`: register the session of `dev` in `namespace` with sync address `host`. */
  method Insert(fs: FileSystem, env: Env, namespace: string, dev: Dev, host: string) returns (err: Option<Error>)
    modifies fs
    ensures Outcome(err, fs.files) == InsertSpec(old(fs.files), old(fs.dirs), env, namespace, dev, host)
    ensures fs.dirs == old(fs.dirs)
  {
    var loaded := Load(fs, env.home);
    if loaded.Err? {
      return Some(loaded.error);
    }
    var s := loaded.value;
    var fullName := GetFullName(namespace, dev);
    var candidate := NewService(dev.source, host, env.cwd);
    if candidate.Err? {
      return Some(candidate.error);
    }
    var svc := candidate.value;
    if fullName in s.services {
      var existing := s.services[fullName];
      if existing == svc {
        return None;
      }
      if existing.syncthing != "" {
        return Some(AlreadyRunning);
      }
    }
    s.services := s.services[fullName := svc];
    err := s.Save(fs, env.writeFails);
  }

  /** `Get`: the entry of `dev` in `namespace`. */
  method Get(fs: FileSystem, env: Env, namespace: string, dev: Dev) returns (r: Result<Service>)
    ensures r == GetSpec(fs.files, fs.dirs, env.home, GetFullName(namespace, dev))
  {
    var loaded := Load(fs, env.home);
    if loaded.Err? {
      return Err(loaded.error);
    }
    var s := loaded.value;
    var fullName := GetFullName(namespace, dev);
    if fullName !in s.services {
      return Err(NotFound(fullName));
    }
    return Ok(s.services[fullName]);
  }

  /** `Stop`: mark the session of `dev` in `namespace` as no longer syncing. */
  method Stop(fs: FileSystem, env: Env, namespace: string, dev: Dev) returns (err: Option<Error>)
    modifies fs
    ensures Outcome(err, fs.files) == StopSpec(old(fs.files), old(fs.dirs), env, GetFullName(namespace, dev))
    ensures fs.dirs == old(fs.dirs)
  {
    var loaded := Load(fs, env.home);
    if loaded.Err? {
      return Some(loaded.error);
    }
    var s := loaded.value;
    var fullName := GetFullName(namespace, dev);
    if fullName in s.services {
      var svc := s.services[fullName];
      svc := svc.(syncthing := "");
      s.services := s.services[fullName := svc];
      err := s.Save(fs, env.writeFails);
      return;
    }
    return None;
  }

  /** `Delete`: forget the session of `dev` in `namespace`. */
  method Delete(fs: FileSystem, env: Env, namespace: string, dev: Dev) returns (err: Option<Error>)
    modifies fs
    ensures Outcome(err, fs.files) == DeleteSpec(old(fs.files), old(fs.dirs), env, GetFullName(namespace, dev))
    ensures fs.dirs == old(fs.dirs)
  {
    var fullName := GetFullName(namespace, dev);
    err := DeleteEntry(fs, env, fullName);
  }

  /** `deleteEntry`: forget the entry stored under `fullName`. */
  method DeleteEntry(fs: FileSystem, env: Env, fullName: string) returns (err: Option<Error>)
    modifies fs
    ensures Outcome(err, fs.files) == DeleteSpec(old(fs.files), old(fs.dirs), env, fullName)
    ensures fs.dirs == old(fs.dirs)
  {
    var loaded := Load(fs, env.home);
    if loaded.Err? {
      return Some(loaded.error);
    }
    var s := loaded.value;
    s.services := s.services - {fullName};
    err := s.Save(fs, env.writeFails);
  }

  /** `All`: every stored entry, or none when the state cannot be loaded. */
  method All(fs: FileSystem, env: Env) returns (services: map<string, Service>)
    ensures LoadSpec(fs.files, fs.dirs, StatePath(env.home)).Ok? ==>
              services == LoadSpec(fs.files, fs.dirs, StatePath(env.home)).value.services
    ensures LoadSpec(fs.files, fs.dirs, StatePath(env.home)).Err? ==> services == map[]
  {
    var loaded := Load(fs, env.home);
    if loaded.Err? {
      return map[];
    }
    return loaded.value.services;
  }

  /** `RemoveIfStale`: evict the entry stored under `fullName` when its session
      folder or its sync daemon is gone. The stored entry `svc` is not
      consulted, and a failure of the eviction itself is not reported. */
  method RemoveIfStale(fs: FileSystem, env: Env, syncthingExists: string -> bool,
                       svc: Service, fullName: string) returns (removed: bool)
    modifies fs
    ensures (removed, fs.files) == StaleSpec(old(fs.files), old(fs.dirs), env, syncthingExists, fullName)
    ensures fs.dirs == old(fs.dirs)
  {
    var serviceFolder := GetServiceFolder(env.home, fullName);
    if serviceFolder.Err? {
      return false;
    }
    if !PathExists(fs.files, fs.dirs, serviceFolder.value) {
      var _ := DeleteEntry(fs, env, fullName);
      return true;
    }
    if !syncthingExists(serviceFolder.value) {
      var _ := DeleteEntry(fs, env, fullName);
      return true;
    }
    return false;
  }
}
