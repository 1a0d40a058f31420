/**
  One run of the action: reduce the discovered `Dockerfile` paths to their
  directories, drop the directories an existing docker entry already names,
  append one entry per remaining directory, and report what is written.
  File-system access, YAML parsing and rendering, and logging are replaced
  by the inputs `paths` and `config` and the returned `Outcome`.
 */
module Reconcile {
  import opened Wrappers
  import opened Yaml
  import opened OrderedSets
  import opened Paths
  import opened Entries

  /** A parsed configuration file; `hasErrors` records parse errors the parser collected. */
  datatype Document = Document(contents: Value, hasErrors: bool)

  /** The configuration file as found: absent, or present and parsed. */
  datatype Config = NoConfig | Existing(doc: Document)

  /** Why a run threw; each is caught at the top level. */
  datatype Reason =
    | NoUpdatesSequence   // the document is not a mapping with an `updates` sequence
    | EntryNotMapping     // an update item is a scalar, which has no `get`
    | DocumentHasErrors   // the yaml library refuses to render a document with parse errors

  datatype Outcome =
    | NoWrite                    // no `Dockerfile` found; nothing is written, the run succeeds
    | WriteExisting(doc: Value)  // the existing file is rewritten with this content
    | WriteNew(doc: Value)       // a new file is created with this content
    | Failed(reason: Reason)     // the run is marked failed with `Message`

  const ErrorPrefix := "internal error: "

  function Describe(reason: Reason): string {
    match reason
    case NoUpdatesSequence => "no updates sequence"
    case EntryNotMapping => "update.get is not a function"
    case DocumentHasErrors => "Document with errors cannot be stringified"
  }

  /** The failure message handed to the platform, if the run failed. */
  function Message(o: Outcome): (m: Option<string>)
    ensures m.Some? <==> o.Failed?
    ensures m.Some? ==> ErrorPrefix <= m.value && |m.value| > |ErrorPrefix|
  {
    if o.Failed? then Some(ErrorPrefix + Describe(o.reason)) else None
  }

  /** `paths.map(path.dirname)`. */
  function DirNames(paths: seq<string>): seq<string> {
    seq(|paths|, i requires 0 <= i < |paths| => Dirname(paths[i]))
  }

  /**
    Joining each directory with a slash-free file name and reducing the
    paths again gives back the directories, position by position.
   */
  lemma DirNamesOfJoins(dirs: seq<string>, file: string)
    requires forall i | 0 <= i < |dirs| :: dirs[i] != ""
    requires '/' !in file
    ensures DirNames(seq(|dirs|, i requires 0 <= i < |dirs| => dirs[i] + "/" + file)) == dirs
  {
    var paths := seq(|dirs|, i requires 0 <= i < |dirs| => dirs[i] + "/" + file);
    forall i | 0 <= i < |dirs| ensures DirNames(paths)[i] == dirs[i] {
      DirnameOfJoin(dirs[i], file);
    }
  }

  /** `new Set(dirNames)`, enumerated in insertion order. */
  function Discovered(paths: seq<string>): seq<string> {
    Dedup(DirNames(paths))
  }

  /** `doc.contents.get("updates")`, when it is a sequence. */
  function UpdatesOf(contents: Value): Option<seq<Value>> {
    match contents
    case Mapping(pairs) => (
      match Lookup(pairs, KeyUpdates)
      case Some(Sequence(items)) => Some(items)
      case _ => None)
    case _ => None
  }

  /** The contents with its `updates` value replaced by `items`. */
  function WithUpdates(contents: Value, items: seq<Value>): Value
    requires contents.Mapping?
  {
    Mapping(Assign(contents.pairs, KeyUpdates, Sequence(items)))
  }

  /**
    Reading `updates` back after replacing them gives the new items, and
    the replacement keeps every other key's value and every pair not under
    `updates`, whatever its key.
   */
  lemma UpdatesOfWithUpdates(contents: Value, items: seq<Value>)
    requires contents.Mapping?
    ensures UpdatesOf(WithUpdates(contents, items)) == Some(items)
    ensures forall k | k != KeyUpdates ::
              Lookup(WithUpdates(contents, items).pairs, k) == Lookup(contents.pairs, k)
    ensures forall i | 0 <= i < |contents.pairs| && !HasKey(contents.pairs[i], KeyUpdates) ::
              WithUpdates(contents, items).pairs[i] == contents.pairs[i]
  {
  }

  /** Some entry of `items` is a docker entry for the string directory `d`. */
  predicate Configured(items: seq<Value>, d: string) {
    exists i | 0 <= i < |items| :: ConfiguresDocker(items[i], d)
  }

  /** The directories that existing docker entries already name. */
  function Blocked(items: seq<Value>): (b: set<string>)
    ensures forall d :: d in b <==> Configured(items, d)
  {
    var b := set i | 0 <= i < |items| && EffectOf(items[i]).Deletes? :: EffectOf(items[i]).dir;
    assert forall d :: d in b <==> exists i | 0 <= i < |items| :: EffectOf(items[i]) == Deletes(d);
    b
  }

  /** The directories a run appends entries for: discovered and not yet configured. */
  function Added(paths: seq<string>, items: seq<Value>): seq<string> {
    Difference(Discovered(paths), Blocked(items))
  }

  lemma NoScalarItemsCons(items: seq<Value>)
    requires |items| > 0
    ensures NoScalarItems(items) <==> !IsScalar(items[0]) && NoScalarItems(items[1..])
  {
    var tail := items[1..];
    assert forall i | 0 <= i < |tail| :: tail[i] == items[i + 1];
  }

  lemma BlockedCons(items: seq<Value>)
    requires |items| > 0
    ensures EffectOf(items[0]).Deletes? ==> Blocked(items) == {EffectOf(items[0]).dir} + Blocked(items[1..])
    ensures !EffectOf(items[0]).Deletes? ==> Blocked(items) == Blocked(items[1..])
  {
    var tail := items[1..];
    forall d | d in Blocked(tail) ensures d in Blocked(items) {
      var i :| 0 <= i < |tail| && ConfiguresDocker(tail[i], d);
      assert items[i + 1] == tail[i];
    }
    forall d | d in Blocked(items) ensures d in Blocked(tail) || EffectOf(items[0]) == Deletes(d) {
      var i :| 0 <= i < |items| && ConfiguresDocker(items[i], d);
      if i > 0 {
        assert ConfiguresDocker(tail[i - 1], d);
      }
    }
    if EffectOf(items[0]).Deletes? {
      assert ConfiguresDocker(items[0], EffectOf(items[0]).dir);
    }
  }

  /** No update item is a scalar, so the loop over them cannot throw. */
  predicate NoScalarItems(items: seq<Value>) {
    forall i | 0 <= i < |items| :: !IsScalar(items[i])
  }

  /**
    The loop over the existing entries: each docker entry whose directory
    is a string deletes that directory from `dirs`; a scalar entry throws.
   */
  function DeleteAll(dirs: seq<string>, items: seq<Value>): (r: Result<seq<string>, Reason>)
    ensures r.Success? <==> NoScalarItems(items)
    ensures r.Failure? ==> r.error == EntryNotMapping
    ensures r.Success? ==> r.value == Difference(dirs, Blocked(items))
    decreases |items|
  {
    if |items| == 0 then
      DifferenceOfDisjoint(dirs, Blocked(items));
      Success(dirs)
    else
      var tail := items[1..];
      NoScalarItemsCons(items);
      match EffectOf(items[0])
      case Throws => Failure(EntryNotMapping)
      case Skip =>
        BlockedCons(items);
        DeleteAll(dirs, tail)
      case Deletes(d) =>
        BlockedCons(items);
        DifferenceTwice(dirs, {d}, Blocked(tail));
        DeleteAll(Delete(dirs, d), tail)
  }

  /** The document created when no configuration file exists. */
  function FreshDocument(dirs: seq<string>, interval: string): (doc: Value)
    ensures doc == Mapping([Pair(Str("version"), Int(2)),
                            Pair(Str("updates"), Sequence(NewEntries(dirs, interval)))])
  {
    var updates := Sequence(NewEntries(dirs, interval));
    AssignFresh([], KeyVersion, Int(2));
    var m0 := Assign([], KeyVersion, Int(2));
    assert m0 == [Pair(Str(KeyVersion), Int(2))];
    AssignFresh(m0, KeyUpdates, updates);
    assert m0 + [Pair(Str(KeyUpdates), updates)]
        == [Pair(Str(KeyVersion), Int(2)), Pair(Str(KeyUpdates), updates)];
    Mapping(Assign(m0, KeyUpdates, updates))
  }

  /** One run of the action. */
  function Run(paths: seq<string>, config: Config, interval: string): (r: Outcome)
    ensures r.NoWrite? <==> |paths| == 0
    ensures r.WriteNew? <==> |paths| > 0 && config.NoConfig?
    ensures r.WriteNew? ==>
              r.doc == Mapping([Pair(Str("version"), Int(2)),
                                Pair(Str("updates"), Sequence(NewEntries(Discovered(paths), interval)))])
    ensures r == Failed(NoUpdatesSequence) <==>
              |paths| > 0 && config.Existing? && UpdatesOf(config.doc.contents).None?
    ensures r == Failed(EntryNotMapping) <==>
              |paths| > 0 && config.Existing? && UpdatesOf(config.doc.contents).Some?
              && !NoScalarItems(UpdatesOf(config.doc.contents).value)
    ensures r == Failed(DocumentHasErrors) <==>
              |paths| > 0 && config.Existing? && UpdatesOf(config.doc.contents).Some?
              && NoScalarItems(UpdatesOf(config.doc.contents).value) && config.doc.hasErrors
    ensures r.WriteExisting? <==>
              |paths| > 0 && config.Existing? && UpdatesOf(config.doc.contents).Some?
              && NoScalarItems(UpdatesOf(config.doc.contents).value) && !config.doc.hasErrors
    ensures r.WriteExisting? ==>
              && config.Existing?
              && UpdatesOf(config.doc.contents).Some?
              && var items := UpdatesOf(config.doc.contents).value;
                 UpdatesOf(r.doc) == Some(items + NewEntries(Added(paths, items), interval))
  {
    if |paths| == 0 then NoWrite
    else
      var dirs := Discovered(paths);
      match config
      case NoConfig => WriteNew(FreshDocument(dirs, interval))
      case Existing(doc) => (
        match UpdatesOf(doc.contents)
        case None => Failed(NoUpdatesSequence)
        case Some(items) => (
          match DeleteAll(dirs, items)
          case Failure(reason) => Failed(reason)
          case Success(remaining) =>
            if doc.hasErrors then Failed(DocumentHasErrors)
            else WriteExisting(WithUpdates(doc.contents, items + NewEntries(remaining, interval)))))
  }
}
