# dependabot-updates-docker, modelled in Dafny

The action looks for files named `Dockerfile` in a repository. It makes sure
`.github/dependabot.yml` has an update rule with `package-ecosystem: docker`
for every directory that holds one. This project models one run of the action
as a pure function, `Reconcile.Run`:

- Each discovered path is reduced to its directory with `path.dirname`.
- The directories are collected in a JavaScript `Set`. The set keeps insertion
  order and holds no duplicates.
- When a configuration exists, the action walks its `updates` sequence. Each
  entry whose `package-ecosystem` is the string `docker` deletes its
  `directory` from the set.
- One entry `{directory, package-ecosystem: docker, schedule: {interval}}` is
  appended per remaining directory, and the document is written back.
- When no configuration exists, a new document `version: 2` plus
  `updates: [...]` is written. It holds one entry per distinct directory.
- When no `Dockerfile` is found, nothing is written and the run succeeds.
- Anything thrown ends the run with the message `internal error: <message>`.

The result is an `Outcome`: `NoWrite`, `WriteExisting(doc)`, `WriteNew(doc)`
or `Failed(reason)`. The schedule interval, which the source reads from the
action input `interval` at module load, is an explicit parameter.

Modules, one per concern:

- `Yaml` (yaml.dfy): YAML nodes as values, with `YAMLMap.get`/`set`
  semantics (`Lookup`/`Assign`: the first pair under a key; set overwrites in
  place or appends).
- `OrderedSets` (ordered_sets.dfy): a JavaScript `Set` as a duplicate-free
  sequence. `Dedup` is `new Set(xs)`, `Delete` is `Set.delete`, and
  `Difference` is order-preserving set difference.
- `Paths` (paths.dfy): `path.dirname`.
- `Entries` (entries.dfy): the entry builder (`addUpdateEntry`) and how one
  existing entry is read by the deletion loop.
- `Reconcile` (reconcile.dfy): `run` and the top-level error handling.
- `RunProperties` (properties.dfy): append-only, the filtering rule, ordering,
  coverage and idempotence.
- `Scenarios` (scenarios.dfy): two example runs.

When no `Dockerfile` is found, the early return at `src/main.ts:57-60` comes
before the configuration is read. An existing configuration is therefore not
rewritten either.

## Model

| member | source | states |
|---|---|---|
| Reconcile.Run | src/main.ts:52-94 | Nothing is written exactly when no path was found, whether or not a config exists. A new document is written exactly when paths exist and no config does: version 2, then `updates` with one entry per distinct directory. Each failure reason occurs exactly under its condition. A missing or non-sequence `updates` gives `NoUpdatesSequence`. A scalar item gives `EntryNotMapping`. Parse errors give `DocumentHasErrors`. A rewrite's `updates` are the old items followed by entries for `Added` |
| Reconcile.Message | src/main.ts:9-19 | A message is produced exactly for failed runs, and it starts with `internal error: ` followed by a non-empty description |
| Reconcile.DeleteAll | src/main.ts:71-77 | The loop deletes one directory per docker entry and throws on a scalar item. It succeeds exactly when no item is a scalar, and it then equals the order-preserving set difference of the directories minus `Blocked(items)` |
| Reconcile.Blocked | src/main.ts:71-77 | A directory is blocked exactly when some item is a mapping whose `package-ecosystem` is the string `docker` and whose `directory` is that string |
| Reconcile.UpdatesOfWithUpdates | src/main.ts:69-79 | Entries pushed into the `updates` sequence read back through `contents.get("updates")` as exactly the new items. Every other top-level key keeps its value, and every pair not under `updates`, whatever its key, is kept unchanged in place |
| Reconcile.FreshDocument | src/main.ts:85-91 | The new document is exactly `version: 2` followed by `updates` holding the entries, in that key order |
| Reconcile.DirNamesOfJoins | src/main.ts:62 | Reducing the paths `dir + "/" + file` (non-empty `dir`, slash-free `file`) with `dirname` gives back the directories, position by position |
| Entries.NewEntry | src/main.ts:33-45 | The entry has keys `directory` (the given dir), `package-ecosystem` (`docker`) and `schedule`, in that order. The schedule is a map whose single key `interval` holds the given interval verbatim |
| Entries.BuildEntryShape | src/main.ts:35-41 | The four `YAMLMap.set` calls on fresh maps produce exactly those pairs in call order |
| Entries.EffectOf | src/main.ts:72-76 | A scalar item throws. A docker mapping with a string directory deletes that directory. Anything else, including other ecosystems, non-string or missing directories and nested sequences, is skipped |
| Entries.NewEntryConfiguresDocker | src/main.ts:33-45 | A built entry is itself a docker entry for its directory, so a later loop deletes that directory |
| Entries.NewEntryInjective | src/main.ts:39 | Different directories give different entries |
| Paths.Dirname | src/main.ts:62 | With no `/`, the result is `.`. With only a leading `/`, it is `/`. Otherwise the result followed by `/` is a prefix of the path, and no `/` follows that prefix |
| Paths.LastSlash | src/main.ts:62 | Finds the last `/` of the path, or reports that there is none |
| Paths.DirnameOfJoin | src/main.ts:62 | `dirname(dir + "/" + file)` is `dir` for a non-empty `dir` and a file name without `/` |
| OrderedSets.Dedup | src/main.ts:63 | `new Set(dirNames)` holds exactly the elements of the input, with no duplicates, in order of first occurrence |
| OrderedSets.Difference | src/main.ts:76 | The result keeps exactly the elements not dropped, and is never longer than the input |
| OrderedSets.Delete | src/main.ts:76 | `Set.delete(d)` removes `d` and keeps every other element |
| OrderedSets.DifferenceTwice | src/main.ts:71-77 | Deleting one set of directories and then another equals deleting their union, so successive deletions compose |
| OrderedSets.DifferenceKeepsOrder | src/main.ts:76 | Deletions keep the first-occurrence order of what remains |
| OrderedSets.FirstIndex | src/main.ts:63 | The first position holding an element, with no earlier occurrence |
| Yaml.FindKey | src/main.ts:69 | The first pair stored under a key, or none when no pair has it |
| Yaml.Lookup | src/main.ts:73 | `YAMLMap.get` returns the value of the first pair under the key, and nothing exactly when no pair has it. The library also returns `undefined` for a pair holding a null scalar; the model keeps that as `Some(Null)`, which every reader here treats like a missing key |
| Yaml.Assign | src/main.ts:36-41 | `YAMLMap.set` makes the key read back as the new value and leaves every other key's value unchanged. It keeps the length and key order when the key exists, and appends one pair otherwise |
| Yaml.AssignSame | src/main.ts:79-83 | Setting a key to the value it already holds leaves the map unchanged |
| RunProperties.AppendOnly | src/main.ts:71-79 | On a rewrite, the old `updates` items are a prefix of the new ones: no existing entry of any ecosystem is removed, reordered or modified. Every top-level pair not under `updates`, whatever its key, is kept unchanged in place |
| RunProperties.AddedIff | src/main.ts:62-77 | An entry for `d` is appended exactly when `d` is the dirname of some discovered path and no existing entry is a docker entry with the string directory `d` |
| RunProperties.NonDockerEntryNeverBlocks | src/main.ts:73-76 | Inserting an entry of another ecosystem, or one whose directory is missing or not a string, anywhere in `updates` never changes what is added |
| RunProperties.AddedInFirstOccurrenceOrder | src/main.ts:62-79 | The appended directories have no duplicates and follow the order of first occurrence among the discovered dirnames |
| RunProperties.EveryDirectoryCovered | src/main.ts:62-79 | After a rewrite, every discovered directory has a docker entry |
| RunProperties.AddedDirectoryHasOneEntry | src/main.ts:71-79 | A directory the run adds has exactly one docker entry afterwards: some entry configures it, and no two do |
| RunProperties.RunIdempotent | src/main.ts:71-83 | Running again on the rewritten document, with any interval, appends nothing and rewrites the same document |
| RunProperties.FreshRunIdempotent | src/main.ts:85-91 | Running again on a freshly created document, with any interval, appends nothing and rewrites it unchanged |
| RunProperties.SecondRunAddsNothing | src/main.ts:71-83 | Once every discovered directory is blocked, a run rewrites the document unchanged |
| RunProperties.BlockedAfterAppend | src/main.ts:79 | Appending entries for some directories blocks exactly those directories in addition to the ones already blocked |
| RunProperties.FreshEntriesCover | src/main.ts:85-86 | The `updates` of a new document name every discovered directory |
| RunProperties.FreshEntriesDistinct | src/main.ts:85-86 | The `updates` of a new document hold no entry twice |
| Scenarios.FreshTwoDirectories | src/main.ts:84-91 | With no config and `Dockerfile`s in two distinct directories `a` and `b`, the new document is `version: 2` with entries for `a` then `b` |
| Scenarios.ExistingEntryNotDuplicated | src/main.ts:65-83 | Take a config whose only entry is a docker entry for `a`, and `Dockerfile`s in `a` and `c`. The run appends only an entry for `c`, after the untouched entry for `a` |

## Left out

- Discovery (the `globby` call with `.gitignore` handling and the `vendor` exclusion) is library behaviour over the file system. The discovered paths are an input.
- YAML parsing and rendering, including preservation of comments and formatting and block-style output, is library behaviour. A parsed file is `Document(contents, hasErrors)`, and a written file is the `Value` in the outcome. Anchors, aliases and tags are not represented.
- File-system existence checks, reads and writes, `core.getInput`, `core.info` log lines and `core.setFailed` are reduced to the `Config` input and the `Outcome` result. The log lines are not modelled.
- The asynchronous wrapper in `safeRun` is not modelled. Its `res instanceof Error` branch is never taken, because `run` only returns `null`.
- Paths.Dirname covers the relative paths a glob returns. Node's handling of trailing slashes is not modelled, and neither is its `//` result for paths that start with two slashes.
- Reconcile.Run: in the source, `updates: {}` (an empty mapping) does not throw. The new entries are pushed into the mapping's item list, and the rendering of that list is library behaviour. The model treats every `updates` that is not a sequence as the `NoUpdatesSequence` failure.
- Reconcile.Message: the text after `internal error: ` is the JavaScript engine's `TypeError` message, which the source does not fix. The model uses a short description per failure reason.
- Yaml.Lookup: the library's `YAMLMap.get` turns a pair holding a null scalar (such as `directory:` with no value) into `undefined`. The model returns `Some(Null)` for it. No outcome of `Reconcile.Run` differs, because a null `package-ecosystem` is not `docker`, a null `directory` deletes nothing, and a null `updates` is not a sequence.
- RunProperties.RunIdempotent and RunProperties.FreshRunIdempotent assume that the written file parses back to exactly the written `Value`, without errors. They pass it back as `Document(out, false)`. The round trip through the library's renderer and parser is not modelled.
- Reconcile.Run: I/O and glob failures are not modelled. This covers a rejected `globby` call and a failing `readFileSync` or `writeFileSync` (`src/main.ts:53`, `:66`, `:80`, `:49`). The source reports each as an internal error, but `Outcome` has no failure reason for them.
