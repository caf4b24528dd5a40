/** Properties of the registry operations as they act on the state file:
    what a later `Get` sees after each operation, and the failure rules. */
module StorageProperties {
  import opened Paths
  import opened Sessions
  import opened Storage

  /** Without a state file the registry is empty at version 1.0: lookups fail
      with not-found and `All` yields no entries. */
  lemma MissingFileIsEmptyRegistry(files: map<string, FileContent>, dirs: set<string>, home: string, key: string)
    requires !PathExists(files, dirs, StatePath(home))
    ensures LoadSpec(files, dirs, StatePath(home)) == Ok(Document(Version, map[]))
    ensures GetSpec(files, dirs, home, key) == Err(NotFound(key))
  {
  }

  /** A saved document loads back with the same entries; a document with a
      version loads back unchanged. */
  lemma SaveLoadRoundTrip(files: map<string, FileContent>, dirs: set<string>, path: string, doc: Document)
    ensures LoadSpec(SaveSpec(files, path, doc, false).files, dirs, path).Ok?
    ensures LoadSpec(SaveSpec(files, path, doc, false).files, dirs, path).value.services == doc.services
    ensures doc.version != "" ==> LoadSpec(SaveSpec(files, path, doc, false).files, dirs, path) == Ok(doc)
  {
    assert SaveSpec(files, path, doc, false).files[path] == Encoded(doc);
  }

  /** A state file that cannot be loaded makes every operation fail with the
      load error and leaves the files alone; `All` sees no entries. */
  lemma LoadFailurePropagates(files: map<string, FileContent>, dirs: set<string>, env: Env,
                              namespace: string, dev: Dev, host: string, key: string)
    requires LoadSpec(files, dirs, StatePath(env.home)).Err?
    ensures var e := LoadSpec(files, dirs, StatePath(env.home)).error;
            InsertSpec(files, dirs, env, namespace, dev, host) == Outcome(Some(e), files) &&
            StopSpec(files, dirs, env, key) == Outcome(Some(e), files) &&
            DeleteSpec(files, dirs, env, key) == Outcome(Some(e), files) &&
            GetSpec(files, dirs, env.home, key) == Err(e)
  {
  }

  /** A failing write leaves the files as they were, and the operation that
      attempted it reports the write error. */
  lemma FailedWriteChangesNothing(files: map<string, FileContent>, dirs: set<string>, env: Env,
                                  namespace: string, dev: Dev, host: string, key: string,
                                  syncthingExists: string -> bool)
    requires env.writeFails
    ensures InsertSpec(files, dirs, env, namespace, dev, host).files == files
    ensures StopSpec(files, dirs, env, key).files == files
    ensures DeleteSpec(files, dirs, env, key).files == files
    ensures StaleSpec(files, dirs, env, syncthingExists, key).1 == files
    ensures LoadSpec(files, dirs, StatePath(env.home)).Ok? ==>
              DeleteSpec(files, dirs, env, key).err == Some(WriteFailed(StatePath(env.home)))
  {
  }

  /** Loading what an operation saved gives the document it saved. */
  lemma LoadAfterUpdate(files: map<string, FileContent>, dirs: set<string>, path: string,
                        doc: Document, u: Update, writeFails: bool)
    requires doc.version != ""
    requires SaveUpdate(files, path, doc, u, writeFails).err == None
    requires LoadSpec(files, dirs, path) == Ok(doc)
    ensures LoadSpec(SaveUpdate(files, path, doc, u, writeFails).files, dirs, path) ==
            Ok(Document(doc.version, Apply(doc.services, u)))
  {
    match u
    case Unchanged =>
    case Updated(m) =>
      SaveLoadRoundTrip(files, dirs, path, Document(doc.version, m));
  }

  /** Loading after a saving operation gives the loaded document with the
      update applied, or the old document when the write failed. */
  lemma LoadAfterAttempt(files: map<string, FileContent>, dirs: set<string>, path: string,
                         doc: Document, u: Update, writeFails: bool)
    requires LoadSpec(files, dirs, path) == Ok(doc)
    ensures var after := SaveUpdate(files, path, doc, u, writeFails);
            LoadSpec(after.files, dirs, path) ==
              if after.err == None then Ok(Document(doc.version, Apply(doc.services, u))) else Ok(doc)
  {
    if SaveUpdate(files, path, doc, u, writeFails).err == None {
      LoadAfterUpdate(files, dirs, path, doc, u, writeFails);
    }
  }

  /** After a successful insert, `Get` returns the candidate entry. */
  lemma InsertThenGet(files: map<string, FileContent>, dirs: set<string>, env: Env,
                      namespace: string, dev: Dev, host: string)
    requires InsertSpec(files, dirs, env, namespace, dev, host).err == None
    ensures NewService(dev.source, host, env.cwd).Ok?
    ensures GetSpec(InsertSpec(files, dirs, env, namespace, dev, host).files, dirs, env.home, GetFullName(namespace, dev))
            == Ok(NewService(dev.source, host, env.cwd).value)
  {
    var path := StatePath(env.home);
    var doc := LoadSpec(files, dirs, path).value;
    var svc := NewService(dev.source, host, env.cwd).value;
    var u := InsertEntry(doc.services, GetFullName(namespace, dev), svc).value;
    LoadAfterUpdate(files, dirs, path, doc, u, env.writeFails);
  }

  /** Inserting the same session twice in a row succeeds both times, and the
      second insert writes nothing. */
  lemma InsertTwice(files: map<string, FileContent>, dirs: set<string>, env: Env,
                    namespace: string, dev: Dev, host: string)
    requires InsertSpec(files, dirs, env, namespace, dev, host).err == None
    ensures var after := InsertSpec(files, dirs, env, namespace, dev, host).files;
            InsertSpec(after, dirs, env, namespace, dev, host) == Outcome(None, after)
  {
    var path := StatePath(env.home);
    var doc := LoadSpec(files, dirs, path).value;
    var svc := NewService(dev.source, host, env.cwd).value;
    var key := GetFullName(namespace, dev);
    var u := InsertEntry(doc.services, key, svc).value;
    LoadAfterUpdate(files, dirs, path, doc, u, env.writeFails);
    InsertIdempotent(doc.services, key, svc);
  }

  /** An insert for a key whose stored entry is different and still syncing
      fails with `AlreadyRunning` and changes nothing. */
  lemma InsertConflict(files: map<string, FileContent>, dirs: set<string>, env: Env,
                       namespace: string, dev: Dev, host: string)
    requires NewService(dev.source, host, env.cwd).Ok?
    requires var existing := GetSpec(files, dirs, env.home, GetFullName(namespace, dev));
             existing.Ok? && existing.value.syncthing != "" &&
             existing.value != NewService(dev.source, host, env.cwd).value
    ensures InsertSpec(files, dirs, env, namespace, dev, host) == Outcome(Some(AlreadyRunning), files)
  {
  }

  /** An insert touches its own key only. */
  lemma InsertLeavesOtherKeys(files: map<string, FileContent>, dirs: set<string>, env: Env,
                              namespace: string, dev: Dev, host: string, other: string)
    requires other != GetFullName(namespace, dev)
    ensures GetSpec(InsertSpec(files, dirs, env, namespace, dev, host).files, dirs, env.home, other) ==
            GetSpec(files, dirs, env.home, other)
  {
    var path := StatePath(env.home);
    var loaded := LoadSpec(files, dirs, path);
    var candidate := NewService(dev.source, host, env.cwd);
    if loaded.Ok? && candidate.Ok? {
      var entry := InsertEntry(loaded.value.services, GetFullName(namespace, dev), candidate.value);
      if entry.Ok? {
        LoadAfterAttempt(files, dirs, path, loaded.value, entry.value, env.writeFails);
      }
    }
  }

  /** After a successful `Stop` the entry is still there with its folder and
      no sync address; `Stop` of an absent key succeeds without a write. */
  lemma StopThenGet(files: map<string, FileContent>, dirs: set<string>, env: Env, key: string)
    requires StopSpec(files, dirs, env, key).err == None
    ensures var before := GetSpec(files, dirs, env.home, key);
            var after := GetSpec(StopSpec(files, dirs, env, key).files, dirs, env.home, key);
            (before.Ok? ==> after == Ok(Service(before.value.folder, ""))) &&
            (before == Err(NotFound(key)) ==> StopSpec(files, dirs, env, key) == Outcome(None, files))
  {
    var path := StatePath(env.home);
    var doc := LoadSpec(files, dirs, path).value;
    LoadAfterUpdate(files, dirs, path, doc, StopEntry(doc.services, key), env.writeFails);
  }

  /** `Stop` touches its own key only. */
  lemma StopLeavesOtherKeys(files: map<string, FileContent>, dirs: set<string>, env: Env,
                            key: string, other: string)
    requires other != key
    ensures GetSpec(StopSpec(files, dirs, env, key).files, dirs, env.home, other) == GetSpec(files, dirs, env.home, other)
  {
    var path := StatePath(env.home);
    var loaded := LoadSpec(files, dirs, path);
    if loaded.Ok? {
      var u := StopEntry(loaded.value.services, key);
      LoadAfterAttempt(files, dirs, path, loaded.value, u, env.writeFails);
      StopKeepsEntry(loaded.value.services, key, other);
    }
  }

  /** After a successful `deleteEntry`, `Get` fails with an error naming the key. */
  lemma DeleteThenGet(files: map<string, FileContent>, dirs: set<string>, env: Env, key: string)
    requires DeleteSpec(files, dirs, env, key).err == None
    ensures GetSpec(DeleteSpec(files, dirs, env, key).files, dirs, env.home, key) == Err(NotFound(key))
  {
    var path := StatePath(env.home);
    var doc := LoadSpec(files, dirs, path).value;
    SaveLoadRoundTrip(files, dirs, path, Document(doc.version, RemoveEntry(doc.services, key)));
  }

  /** `deleteEntry` touches its own key only. */
  lemma DeleteLeavesOtherKeys(files: map<string, FileContent>, dirs: set<string>, env: Env,
                              key: string, other: string)
    requires other != key
    ensures GetSpec(DeleteSpec(files, dirs, env, key).files, dirs, env.home, other) == GetSpec(files, dirs, env.home, other)
  {
    var path := StatePath(env.home);
    var loaded := LoadSpec(files, dirs, path);
    if loaded.Ok? && !env.writeFails {
      SaveLoadRoundTrip(files, dirs, path, Document(loaded.value.version, RemoveEntry(loaded.value.services, key)));
      RemoveThenLookup(loaded.value.services, key, other);
    }
  }

  /** The four cases of `RemoveIfStale`. A malformed key and a live session
      change nothing; a missing session folder or a dead sync daemon evict
      the entry and report true, even when the eviction itself fails. */
  lemma StaleRules(files: map<string, FileContent>, dirs: set<string>, env: Env,
                   syncthingExists: string -> bool, key: string)
    ensures GetServiceFolder(env.home, key).Err? ==>
              StaleSpec(files, dirs, env, syncthingExists, key) == (false, files)
    ensures GetServiceFolder(env.home, key).Ok? ==>
              var folder := GetServiceFolder(env.home, key).value;
              (!PathExists(files, dirs, folder) ==>
                 StaleSpec(files, dirs, env, syncthingExists, key) == (true, DeleteSpec(files, dirs, env, key).files)) &&
              (PathExists(files, dirs, folder) && !syncthingExists(folder) ==>
                 StaleSpec(files, dirs, env, syncthingExists, key) == (true, DeleteSpec(files, dirs, env, key).files)) &&
              (PathExists(files, dirs, folder) && syncthingExists(folder) ==>
                 StaleSpec(files, dirs, env, syncthingExists, key) == (false, files))
  {
  }

  /** A key without `/` is never evicted. */
  lemma StaleKeepsMalformedKey(files: map<string, FileContent>, dirs: set<string>, env: Env,
                               syncthingExists: string -> bool, key: string)
    requires Separator !in key
    ensures StaleSpec(files, dirs, env, syncthingExists, key) == (false, files)
  {
  }

  /** An evicted entry is gone: when the state loads and the write succeeds,
      `Get` fails afterwards with an error naming the key. */
  lemma StaleThenGet(files: map<string, FileContent>, dirs: set<string>, env: Env,
                     syncthingExists: string -> bool, key: string)
    requires LoadSpec(files, dirs, StatePath(env.home)).Ok? && !env.writeFails
    requires StaleSpec(files, dirs, env, syncthingExists, key).0
    ensures GetSpec(StaleSpec(files, dirs, env, syncthingExists, key).1, dirs, env.home, key) == Err(NotFound(key))
  {
    DeleteThenGet(files, dirs, env, key);
  }

  /** For a session registered through `GetFullName` whose namespace and
      deployment hold no `/`, eviction is decided by
      `{home}/{namespace}/{deployment}` alone. */
  lemma StaleSessionFolder(files: map<string, FileContent>, dirs: set<string>, env: Env,
                           syncthingExists: string -> bool, namespace: string, dev: Dev)
    requires Separator !in namespace && Separator !in dev.deployment
    ensures var folder := Join(Join(env.home, namespace), dev.deployment);
            StaleSpec(files, dirs, env, syncthingExists, GetFullName(namespace, dev)).0 <==>
              !PathExists(files, dirs, folder) || !syncthingExists(folder)
  {
    ServiceFolderOfPlainNames(env.home, namespace, dev);
  }

  /** A stopped session can be taken over: once `Stop` succeeded, an insert
      with any candidate succeeds (when its write does) and `Get` returns it. */
  lemma InsertAfterStopSucceeds(files: map<string, FileContent>, dirs: set<string>, env: Env,
                                namespace: string, dev: Dev, host: string)
    requires StopSpec(files, dirs, env, GetFullName(namespace, dev)).err == None
    requires NewService(dev.source, host, env.cwd).Ok? && !env.writeFails
    ensures var stopped := StopSpec(files, dirs, env, GetFullName(namespace, dev)).files;
            InsertSpec(stopped, dirs, env, namespace, dev, host).err == None &&
            GetSpec(InsertSpec(stopped, dirs, env, namespace, dev, host).files, dirs, env.home, GetFullName(namespace, dev))
              == Ok(NewService(dev.source, host, env.cwd).value)
  {
    var path := StatePath(env.home);
    var key := GetFullName(namespace, dev);
    var doc := LoadSpec(files, dirs, path).value;
    var svc := NewService(dev.source, host, env.cwd).value;
    LoadAfterUpdate(files, dirs, path, doc, StopEntry(doc.services, key), env.writeFails);
    InsertAfterStop(doc.services, key, svc);
    InsertThenGet(StopSpec(files, dirs, env, key).files, dirs, env, namespace, dev, host);
  }

  /** The life of one session: the first attach succeeds, a second attach
      with another address is refused with `AlreadyRunning`, and after
      `Stop` the second attach succeeds and `Get` returns its address. */
  lemma AttachConflictStopReattach(files: map<string, FileContent>, dirs: set<string>, env: Env,
                                   namespace: string, dev: Dev, first: string, second: string)
    requires LoadSpec(files, dirs, StatePath(env.home)).Ok?
    requires GetFullName(namespace, dev) !in LoadSpec(files, dirs, StatePath(env.home)).value.services
    requires NewService(dev.source, first, env.cwd).Ok? && !env.writeFails
    requires first != "" && first != second
    ensures var key := GetFullName(namespace, dev);
            var attached := InsertSpec(files, dirs, env, namespace, dev, first);
            var refused := InsertSpec(attached.files, dirs, env, namespace, dev, second);
            var stopped := StopSpec(refused.files, dirs, env, key);
            var reattached := InsertSpec(stopped.files, dirs, env, namespace, dev, second);
            attached.err == None &&
            refused == Outcome(Some(AlreadyRunning), attached.files) &&
            stopped.err == None &&
            reattached.err == None &&
            GetSpec(reattached.files, dirs, env.home, key) == Ok(NewService(dev.source, second, env.cwd).value)
  {
    var key := GetFullName(namespace, dev);
    var path := StatePath(env.home);
    var attached := InsertSpec(files, dirs, env, namespace, dev, first);
    var svc := NewService(dev.source, first, env.cwd).value;
    InsertThenGet(files, dirs, env, namespace, dev, first);
    assert GetSpec(attached.files, dirs, env.home, key) == Ok(svc);
    InsertConflict(attached.files, dirs, env, namespace, dev, second);
    var stopped := StopSpec(attached.files, dirs, env, key);
    InsertAfterStopSucceeds(attached.files, dirs, env, namespace, dev, second);
    InsertThenGet(stopped.files, dirs, env, namespace, dev, second);
  }
}
