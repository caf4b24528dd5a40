# Session registry of `cnd`, modelled in Dafny

`cnd` keeps a registry of the development sessions active on a machine:
one YAML state file, `{home}/.state`, holding a schema version and a map
from the key `"{namespace}/{deployment}/{container}"` to a `Service`
record `{Folder, Syncthing}`. Every operation of `pkg/storage` except
`RemoveIfStale` starts by loading the whole file into a `Storage` value.
`Get` and `All` only read it. `insert`, `Stop` and `deleteEntry` change its
`Services` map in place and write the whole file back. They return without
writing when loading fails, and in three more cases: an `insert` whose
candidate cannot be resolved (`newService` fails), an `insert` refused with
`ErrAlreadyRunning`, and an `insert` of an entry identical to the stored
one; and a `Stop` of an absent key. `RemoveIfStale` first derives the
session folder and checks it. It loads and writes only inside the
`deleteEntry` it calls, so never for a malformed key or a live session. The
rules are these:

- `insert` leaves an identical entry alone without writing. It refuses to
  overwrite an entry that is still syncing (`ErrAlreadyRunning`) and
  otherwise stores the candidate.
- `Stop` clears an entry's sync address but keeps the entry.
- `Delete` and `deleteEntry` drop the entry.
- `Get` fails, naming the key, when the entry is absent.
- `All` returns no entries when the file cannot be loaded.
- `RemoveIfStale` derives the session folder `{home}/{namespace}/{deployment}`
  from the key. It evicts the entry when that folder is missing or its sync
  daemon is not running.

The project has four modules:

- `Paths` (`paths.dfy`) stands in for the parts of Go's `strings.Split`,
  `path.Join` and `filepath.IsAbs` that the registry relies on. It proves that
  splitting and joining on `/` are inverse to each other.
- `Sessions` (`sessions.dfy`) holds the entities (`Service`, `Dev`, `Error`)
  and the pure helpers `getFullName`, `fixPath`, `newService` and
  `getServiceFolder`. It also holds each operation's rule for one key of the
  services map (`InsertEntry`, `StopEntry`, `RemoveEntry`, `Lookup`) with
  lemmas about them.
- `Storage` (`storage.dfy`) models the outside world as a `FileSystem`
  object: its files and directories. Go's `Storage` struct is a class whose
  `services` map the operations update in place. Every operation is a method
  proved against a function of the file system before the call (`LoadSpec`,
  `InsertSpec`, `GetSpec`, `StopSpec`, `DeleteSpec`, `StaleSpec`). An
  operation's postcondition gives the error it returns and the files it leaves
  behind.
- `StorageProperties` (`properties.dfy`) proves what a later `Get` sees after
  each operation. It also proves the failure rules and the attach / refuse /
  stop / re-attach life of one session.

The outside world enters as parameters:

- the contents of the state file (`Unreadable`, `Garbage` or a decoded
  `Document`) and the set of existing directories;
- `Env.home`, the configuration root;
- `Env.cwd`, the working directory, `None` when `os.Getwd` fails;
- `Env.writeFails`, whether the next write of the state file fails;
- `syncthingExists`, the sync-daemon liveness check, a function of the folder.

Three details follow the code exactly:

- The session folder is meant to be `{home}/{namespace}/{deployment}`, but the
  code builds it from the first two `/`-separated pieces of the key. Those are
  the namespace and the deployment only when neither contains `/`
  (`ServiceFolderOfPlainNames`). In general the folder is still independent
  of the container (`ServiceFolderIgnoresContainer`).
- A stored `Folder` is absolute whenever the working directory is absolute
  (`NewService`). The code does not check the working directory itself.
- `RemoveIfStale` reports `true` even when its eviction fails to load or to
  write, because the code ignores `deleteEntry`'s error.

## Model

| member | source | states |
|---|---|---|
| `Paths.Split` | pkg/storage/storage.go:214 | splitting on `/` always yields at least one piece |
| `Paths.SplitAround` | pkg/storage/storage.go:214 | splitting `a + "/" + b` gives the pieces of `a` followed by those of `b` |
| `Paths.SplitNoSeparator` | pkg/storage/storage.go:214 | a string without `/` is one piece |
| `Paths.SplitSingle` | pkg/storage/storage.go:214-215 | a string splits into two or more pieces exactly when it contains `/` |
| `Paths.SplitUnsplit` | pkg/storage/storage.go:210-214 | keys joined from separator-free parts split back into those parts |
| `Paths.UnsplitSplit` | pkg/storage/storage.go:214 | joining the pieces of a split with `/` gives the string back |
| `Paths.IsAbs` | pkg/storage/storage.go:191 | a path is absolute exactly when it is non-empty and its first `/`-separated piece is empty (it starts at the root) |
| `Paths.Join` | pkg/storage/storage.go:198 | joining onto an absolute directory is absolute and extends that directory |
| `Sessions.GetFullName` | pkg/storage/storage.go:209-211 | the key is namespace, deployment and container joined with `/`; it splits into their pieces in that order, so into at least three |
| `Sessions.ParseFullName` | pkg/storage/storage.go:209-214 | a key built from separator-free names parses back into exactly those three names |
| `Sessions.FixPath` | pkg/storage/storage.go:190-199 | an absolute path is returned unchanged; a relative one is joined onto the working directory; it fails only when the path is relative and the working directory is unknown; an absolute working directory gives an absolute result |
| `Sessions.NewService` | pkg/storage/storage.go:201-207 | the candidate carries the given sync address and the folder `fixPath` resolves: an absolute source unchanged, a relative one joined onto the working directory, absolute whenever the working directory is; it fails exactly when path resolution fails |
| `Sessions.GetServiceFolder` | pkg/storage/storage.go:213-220 | deriving the session folder fails exactly for keys without `/`, with an error naming the key and the state file; under an absolute home the folder is absolute |
| `Sessions.StatePath` | pkg/storage/storage.go:42-44 | the state file lies under the configuration home, and is absolute when the home is |
| `Sessions.FullNameWellFormed` | pkg/storage/storage.go:209-220 | every key from `getFullName` has at least three pieces, so its session folder is always derivable |
| `Sessions.ServiceFolderIgnoresContainer` | pkg/storage/storage.go:213-220 | the derived folder does not depend on the container |
| `Sessions.ServiceFolderOfPlainNames` | pkg/storage/storage.go:209-220 | when neither the namespace nor the deployment contains `/`, the derived folder is `{home}/{namespace}/{deployment}`, whatever the container |
| `Sessions.Lookup` | pkg/storage/storage.go:126-131 | a lookup succeeds exactly for present keys, with the stored entry, and otherwise fails with an error naming the key |
| `Sessions.InsertEntry` | pkg/storage/storage.go:101-112 | an identical entry is kept without a write; a different entry that is syncing is a conflict (`AlreadyRunning`); otherwise the key maps to the candidate and nothing else changes |
| `Sessions.StopEntry` | pkg/storage/storage.go:141-148 | an absent key is left without a write; a present one is rewritten |
| `Sessions.RemoveEntry` | pkg/storage/storage.go:163 | the key is gone and every other entry is kept unchanged |
| `Sessions.InsertIdempotent` | pkg/storage/storage.go:101-104 | re-inserting a just-inserted candidate is accepted without a write |
| `Sessions.InsertConflictIgnoresFolder` | pkg/storage/storage.go:106-109 | a syncing entry blocks every different candidate whatever its folder |
| `Sessions.InsertAfterStop` | pkg/storage/storage.go:101-112 | after `Stop` any candidate is accepted and stored under the key |
| `Sessions.StopKeepsEntry` | pkg/storage/storage.go:141-148 | `Stop` keeps the entry and its folder, clears the sync address, leaves other keys alone and is a no-op on an absent key |
| `Sessions.RemoveThenLookup` | pkg/storage/storage.go:157-165 | after removal a lookup of the key fails naming it; other keys look up as before |
| `Sessions.RemoveAbsent` | pkg/storage/storage.go:163 | removing an absent key changes nothing |
| `Storage.LoadSpec` | pkg/storage/storage.go:45-62 | a missing state file loads as an empty registry at version 1.0; an existing file that cannot be read is a read error naming it, one that does not decode is an unmarshal error, never an empty registry; a decoded file gives its entries and its version, which is never empty |
| `Storage.Storage.Save` | pkg/storage/storage.go:177-188 | the state file is overwritten with the document unless the write fails, which reports an error naming the file and changes nothing |
| `Storage.Load` | pkg/storage/storage.go:45-62 | returns a fresh state for the state file holding the document `LoadSpec` describes, or `LoadSpec`'s error |
| `Storage.Insert` | pkg/storage/storage.go:89-117 | the error and the files left behind are those of `InsertSpec`: load, resolve the candidate, apply `InsertEntry`, save |
| `Storage.Get` | pkg/storage/storage.go:119-132 | returns the entry stored under the key, the load error, or not-found naming the key |
| `Storage.Stop` | pkg/storage/storage.go:134-149 | the error and the files left behind are those of `StopSpec` |
| `Storage.Delete` | pkg/storage/storage.go:151-155 | behaves as `deleteEntry` on the key of the session |
| `Storage.DeleteEntry` | pkg/storage/storage.go:157-165 | the error and the files left behind are those of `DeleteSpec` |
| `Storage.All` | pkg/storage/storage.go:167-175 | returns the stored entries, or no entries when the state file cannot be loaded |
| `Storage.RemoveIfStale` | pkg/storage/storage.go:222-244 | the answer and the files left behind are those of `StaleSpec` |
| `StorageProperties.MissingFileIsEmptyRegistry` | pkg/storage/storage.go:45-52 | without a state file the registry is empty at version 1.0 and every lookup is not-found |
| `StorageProperties.SaveLoadRoundTrip` | pkg/storage/storage.go:57-61 | loading a saved document gives back its entries, and the whole document when it has a version |
| `StorageProperties.LoadFailurePropagates` | pkg/storage/storage.go:90-93 | a load failure is returned by `insert`, `Stop`, `deleteEntry` and `Get`, and no file changes |
| `StorageProperties.FailedWriteChangesNothing` | pkg/storage/storage.go:183-186 | when the write fails no operation changes a file, and `deleteEntry` reports the write error |
| `StorageProperties.LoadAfterUpdate` | pkg/storage/storage.go:112-116 | after a successful save, loading gives the loaded document with the update applied |
| `StorageProperties.LoadAfterAttempt` | pkg/storage/storage.go:112-116 | after a save attempt, loading gives the updated document, or the old one when the write failed |
| `StorageProperties.InsertThenGet` | pkg/storage/storage.go:95-116 | after a successful insert, `Get` returns the candidate entry |
| `StorageProperties.InsertTwice` | pkg/storage/storage.go:101-104 | inserting the same session twice succeeds both times and the second insert writes nothing |
| `StorageProperties.InsertConflict` | pkg/storage/storage.go:106-109 | inserting over a different, syncing entry returns `AlreadyRunning` and changes no file |
| `StorageProperties.InsertLeavesOtherKeys` | pkg/storage/storage.go:112 | `Get` on any other key returns what it returned before the insert |
| `StorageProperties.StopThenGet` | pkg/storage/storage.go:141-148 | after `Stop` the entry is still found with its folder and an empty sync address; `Stop` of an absent key succeeds without a write |
| `StorageProperties.StopLeavesOtherKeys` | pkg/storage/storage.go:145 | `Get` on any other key returns what it returned before `Stop` |
| `StorageProperties.DeleteThenGet` | pkg/storage/storage.go:157-165 | after a successful delete, `Get` of the key fails naming it |
| `StorageProperties.DeleteLeavesOtherKeys` | pkg/storage/storage.go:163 | `Get` on any other key returns what it returned before the delete |
| `StorageProperties.StaleRules` | pkg/storage/storage.go:224-244 | a malformed key and a live session change nothing and report false; a missing folder or a dead daemon evicts the entry and reports true, even if the eviction fails |
| `StorageProperties.StaleKeepsMalformedKey` | pkg/storage/storage.go:225-229 | a key without `/` is never evicted |
| `StorageProperties.StaleThenGet` | pkg/storage/storage.go:231-241 | after an eviction that could write, `Get` of the key fails naming it |
| `StorageProperties.StaleSessionFolder` | pkg/storage/storage.go:224-244 | when neither the namespace nor the deployment contains `/`, eviction happens exactly when `{home}/{namespace}/{deployment}` is missing or its daemon is not running |
| `StorageProperties.InsertAfterStopSucceeds` | pkg/storage/storage.go:106-116 | once `Stop` succeeded, a new insert for the key succeeds when its write does, and `Get` then returns the candidate |
| `StorageProperties.AttachConflictStopReattach` | pkg/storage/storage.go:89-149 | first attach succeeds; a second with another address is refused with `AlreadyRunning`; after `Stop` it succeeds and `Get` returns it |

## Left out

- The background part of `Insert` (pkg/storage/storage.go:64-87) is not
  modelled. It is a goroutine on a `WaitGroup` that waits for the context to be
  cancelled and then calls `Stop`, whose behaviour is modelled; the model has
  no concurrency.
- YAML encoding and decoding are not modelled. A state file is `Unreadable`,
  `Garbage` or a decoded `Document`. A `Document` with an empty version stands
  for a file without a `version` key; decoding into the pre-filled struct makes
  that version "1.0".
- The marshalling error of `save` (pkg/storage/storage.go:179-182) is left out,
  because `yaml.Marshal` cannot fail on a struct of strings and string maps.
- A failed write leaves the file as it was. A partially written file is not
  modelled.
- `os.Stat` is modelled as "something exists at the path". A directory at the
  state file's path loads as a read error, as `ioutil.ReadFile` reports one.
- `syncthing.Exists` (the `syncthing.pid` check) is a parameter. `os.Getwd`, the
  configuration home and write failures come from `Env`.
- Logging is left out; it affects no result.
- `All` returns `nil` in Go on a load failure. The model returns the empty map,
  which reads the same to every caller.
- Two processes writing the state file concurrently, and the lost update this
  can cause, are not modelled; each operation runs alone.
- `Paths.Join`: does not clean the result as `path.Join` does (no removal of
  `.`, `..` or doubled `/`). The model only skips empty elements and inserts
  one `/`.
- `Paths.IsAbs`: models `filepath.IsAbs` on Unix only (a leading `/`). The
  Windows forms it also accepts, drive-letter and UNC paths, are not modelled.
- pkg/analytics/analytics.go and cmd/root.go are not part of this model. They
  hold telemetry posting and command wiring, with no registry state.
