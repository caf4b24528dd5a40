/** The entities of the session registry and the rules each registry
    operation applies to one entry of the services map. */
module Sessions {
  import opened Paths

  datatype Option<T> = None | Some(value: T)

  datatype Result<T> = Ok(value: T) | Err(error: Error)

  /** The failures the registry reports. */
  datatype Error =
    | ReadFailed(path: string)                      // the state file exists but cannot be read
    | UnmarshalFailed                               // the state file does not decode
    | WriteFailed(path: string)                     // the state file cannot be written
    | GetwdFailed                                   // the working directory is unknown
    | AlreadyRunning                                // `ErrAlreadyRunning`
    | NotFound(key: string)                         // no entry for the key
    | MalformedKey(key: string, statePath: string)  // a stored key has no `/`

  /** One registry entry: the local folder and the address of its sync daemon
      (empty when the session is stopped). */
  datatype Service = Service(folder: string, syncthing: string)

  /** The parts of a development environment descriptor the registry reads:
      `Swap.Deployment.Name`, `Swap.Deployment.Container` and `Mount.Source`. */
  datatype Dev = Dev(deployment: string, container: string, source: string)

  /** Location of the state file under the configuration home. */
  function StatePath(home: string): (path: string)
    ensures home <= path
    ensures IsAbs(home) ==> IsAbs(path)
  {
    Join(home, ".state")
  }

  /** The registry key `"{namespace}/{deployment}/{container}"`; it splits
      into the pieces of its three components, so into three or more. */
  function GetFullName(namespace: string, dev: Dev): (key: string)
    ensures key == Unsplit([namespace, dev.deployment, dev.container])
    ensures Split(key) == Split(namespace) + Split(dev.deployment) + Split(dev.container)
    ensures |Split(key)| >= 3
  {
    var tail := dev.deployment + [Separator] + dev.container;
    SplitAround(namespace, tail);
    SplitAround(dev.deployment, dev.container);
    assert [namespace, dev.deployment, dev.container][1..] == [dev.deployment, dev.container];
    assert [dev.deployment, dev.container][1..] == [dev.container];
    assert Unsplit([dev.deployment, dev.container]) == tail;
    assert Unsplit([namespace, dev.deployment, dev.container]) == namespace + [Separator] + tail;
    namespace + [Separator] + tail
  }

  /** Keys built from separator-free names parse back into those names. */
  lemma ParseFullName(namespace: string, dev: Dev)
    requires Separator !in namespace && Separator !in dev.deployment && Separator !in dev.container
    ensures Split(GetFullName(namespace, dev)) == [namespace, dev.deployment, dev.container]
  {
    SplitUnsplit([namespace, dev.deployment, dev.container]);
  }

  /** `fixPath`: an absolute path is kept, a relative one is joined onto the
      working directory, which is consulted only for relative paths. */
  function FixPath(originalPath: string, cwd: Option<string>): (r: Result<string>)
    ensures IsAbs(originalPath) ==> r == Ok(originalPath)
    ensures r.Err? <==> !IsAbs(originalPath) && cwd.None?
    ensures r.Err? ==> r.error == GetwdFailed
    ensures r.Ok? && !IsAbs(originalPath) ==> r.value == Join(cwd.value, originalPath)
    ensures cwd.Some? && IsAbs(cwd.value) ==> r.Ok? && IsAbs(r.value)
  {
    if IsAbs(originalPath) then Ok(originalPath)
    else match cwd
      case None => Err(GetwdFailed)
      case Some(folder) => Ok(Join(folder, originalPath))
  }

  /** `newService`: the candidate entry for a source folder and a sync address. */
  function NewService(folder: string, host: string, cwd: Option<string>): (r: Result<Service>)
    ensures r.Err? <==> !IsAbs(folder) && cwd.None?
    ensures r.Err? ==> r.error == GetwdFailed
    ensures r.Ok? ==> r.value.syncthing == host
    ensures r.Ok? ==> r.value.folder == FixPath(folder, cwd).value
    ensures r.Ok? && IsAbs(folder) ==> r.value.folder == folder
    ensures r.Ok? && !IsAbs(folder) ==> r.value.folder == Join(cwd.value, folder)
    ensures cwd.Some? && IsAbs(cwd.value) ==> r.Ok? && IsAbs(r.value.folder)
  {
    match FixPath(folder, cwd)
    case Err(e) => Err(e)
    case Ok(absFolder) => Ok(Service(absFolder, host))
  }

  /** `getServiceFolder`: the session folder `{home}/{namespace}/{deployment}`
      derived from the first two pieces of a key. A key is malformed exactly
      when it holds no `/`; the error names the key and the state file. */
  function GetServiceFolder(home: string, fullName: string): (r: Result<string>)
    ensures r.Err? <==> Separator !in fullName
    ensures r.Err? ==> r.error == MalformedKey(fullName, StatePath(home))
    ensures r.Ok? && IsAbs(home) ==> IsAbs(r.value)
  {
    SplitSingle(fullName);
    var parts := Split(fullName);
    if |parts| < 2 then Err(MalformedKey(fullName, StatePath(home)))
    else Ok(Join(Join(home, parts[0]), parts[1]))
  }

  /** Every key built by `GetFullName` has at least three pieces, so its
      session folder can always be derived. */
  lemma FullNameWellFormed(home: string, namespace: string, dev: Dev)
    ensures |Split(GetFullName(namespace, dev))| >= 3
    ensures GetServiceFolder(home, GetFullName(namespace, dev)).Ok?
  {
  }

  /** The session folder depends on the namespace and the deployment only. */
  lemma ServiceFolderIgnoresContainer(home: string, namespace: string, dev1: Dev, dev2: Dev)
    requires dev1.deployment == dev2.deployment
    ensures GetServiceFolder(home, GetFullName(namespace, dev1)) == GetServiceFolder(home, GetFullName(namespace, dev2))
  {
    var prefix := Split(namespace) + Split(dev1.deployment);
    assert Split(GetFullName(namespace, dev1))[..2] == prefix[..2];
    assert Split(GetFullName(namespace, dev2))[..2] == prefix[..2];
  }

  /** When neither the namespace nor the deployment holds `/`, the session
      folder is `{home}/{namespace}/{deployment}`, whatever the container. */
  lemma ServiceFolderOfPlainNames(home: string, namespace: string, dev: Dev)
    requires Separator !in namespace && Separator !in dev.deployment
    ensures GetServiceFolder(home, GetFullName(namespace, dev)) == Ok(Join(Join(home, namespace), dev.deployment))
  {
    SplitNoSeparator(namespace);
    SplitNoSeparator(dev.deployment);
  }

  /** What an operation does to the services map: leave it alone, or replace it
      by a new map that must then be saved. */
  datatype Update = Unchanged | Updated(services: map<string, Service>)

  /** The services map after an update. */
  function Apply(services: map<string, Service>, u: Update): (after: map<string, Service>)
  {
    match u
    case Unchanged => services
    case Updated(m) => m
  }

  /** The map lookup of `Get`. */
  function Lookup(services: map<string, Service>, key: string): (r: Result<Service>)
    ensures r.Ok? <==> key in services
    ensures r.Ok? ==> r.value == services[key]
    ensures r.Err? ==> r.error == NotFound(key)
  {
    if key in services then Ok(services[key]) else Err(NotFound(key))
  }

  /** The rule of `insert`: an identical entry is kept without a write, a
      different entry that is still syncing is a conflict, and otherwise the
      candidate is stored under the key. */
  function InsertEntry(services: map<string, Service>, key: string, svc: Service): (r: Result<Update>)
    ensures r.Ok? ==> Apply(services, r.value) == services[key := svc]
    ensures r == Ok(Unchanged) <==> key in services && services[key] == svc
    ensures r.Err? <==> key in services && services[key] != svc && services[key].syncthing != ""
    ensures r.Err? ==> r.error == AlreadyRunning
  {
    if key in services && services[key] == svc then Ok(Unchanged)
    else if key in services && services[key].syncthing != "" then Err(AlreadyRunning)
    else Ok(Updated(services[key := svc]))
  }

  /** The rule of `Stop`: a present entry loses its sync address and keeps its
      folder; an absent key changes nothing. */
  function StopEntry(services: map<string, Service>, key: string): (u: Update)
    ensures key !in services <==> u == Unchanged
  {
    if key in services then Updated(services[key := services[key].(syncthing := "")])
    else Unchanged
  }

  /** The rule of `deleteEntry`: the key is dropped from the map. */
  function RemoveEntry(services: map<string, Service>, key: string): (m: map<string, Service>)
    ensures key !in m
    ensures forall k :: k in services && k != key ==> k in m && m[k] == services[k]
    ensures forall k :: k in m ==> k in services
  {
    services - {key}
  }

  /** Inserting the same candidate again right after a successful insert is
      an accepted no-op. */
  lemma InsertIdempotent(services: map<string, Service>, key: string, svc: Service)
    requires InsertEntry(services, key, svc).Ok?
    ensures var after := Apply(services, InsertEntry(services, key, svc).value);
            InsertEntry(after, key, svc) == Ok(Unchanged)
  {
  }

  /** Conflict detection looks at the workload identity only: a syncing entry
      blocks every different candidate, whatever its folder. */
  lemma InsertConflictIgnoresFolder(services: map<string, Service>, key: string, folder: string, host: string)
    requires key in services && services[key].syncthing != ""
    requires services[key] != Service(folder, host)
    ensures InsertEntry(services, key, Service(folder, host)) == Err(AlreadyRunning)
  {
  }

  /** After `Stop`, inserting any candidate for the key succeeds and stores it,
      whatever its folder. */
  lemma InsertAfterStop(services: map<string, Service>, key: string, svc: Service)
    ensures var stopped := Apply(services, StopEntry(services, key));
            InsertEntry(stopped, key, svc).Ok? &&
            Apply(stopped, InsertEntry(stopped, key, svc).value) == stopped[key := svc]
  {
  }

  /** `Stop` keeps the entry and its folder, clears the sync address, and
      leaves every other key as it was. */
  lemma StopKeepsEntry(services: map<string, Service>, key: string, other: string)
    requires other != key
    ensures var after := Apply(services, StopEntry(services, key));
            (key in services ==> Lookup(after, key) == Ok(Service(services[key].folder, ""))) &&
            (key !in services ==> after == services) &&
            Lookup(after, other) == Lookup(services, other)
  {
  }

  /** After `deleteEntry` a lookup of the key fails with an error naming it,
      and every other key is as it was. */
  lemma RemoveThenLookup(services: map<string, Service>, key: string, other: string)
    requires other != key
    ensures Lookup(RemoveEntry(services, key), key) == Err(NotFound(key))
    ensures Lookup(RemoveEntry(services, key), other) == Lookup(services, other)
  {
  }

  /** Removing an absent key changes nothing. */
  lemma RemoveAbsent(services: map<string, Service>, key: string)
    requires key !in services
    ensures RemoveEntry(services, key) == services
  {
  }
}
