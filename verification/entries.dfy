/**
  Update-rule entries of a Dependabot configuration: how the action builds
  one, and how it reads an existing one when deciding which directories
  are already covered.
 */
module Entries {
  import opened Wrappers
  import opened Yaml

  const EcosystemDocker := "docker"
  const KeyUpdates := "updates"
  const KeyDirectory := "directory"
  const KeyEcosystem := "package-ecosystem"
  const KeySchedule := "schedule"
  const KeyVersion := "version"
  const KeyInterval := "interval"

  /**
    The entry built for `dir`: keys `directory`, `package-ecosystem` and
    `schedule`, in that order, the schedule holding only `interval`.
    The interval is the action's `interval` input, passed in explicitly.
   */
  function NewEntry(dir: string, interval: string): (e: Value)
    ensures e == Mapping([
                  Pair(Str("directory"), Str(dir)),
                  Pair(Str("package-ecosystem"), Str("docker")),
                  Pair(Str("schedule"), Mapping([Pair(Str("interval"), Str(interval))]))])
  {
    BuildEntryShape(dir, interval);
    var schedule := Assign([], KeyInterval, Str(interval));
    Mapping(Assign(Assign(Assign([], KeyDirectory, Str(dir)), KeyEcosystem, Str(EcosystemDocker)),
                   KeySchedule, Mapping(schedule)))
  }

  /** The three `set` calls on a fresh mapping append their pairs in call order. */
  lemma BuildEntryShape(dir: string, interval: string)
    ensures Assign([], KeyInterval, Str(interval)) == [Pair(Str(KeyInterval), Str(interval))]
    ensures Assign(Assign(Assign([], KeyDirectory, Str(dir)), KeyEcosystem, Str(EcosystemDocker)),
                   KeySchedule, Mapping(Assign([], KeyInterval, Str(interval))))
         == [Pair(Str(KeyDirectory), Str(dir)),
             Pair(Str(KeyEcosystem), Str(EcosystemDocker)),
             Pair(Str(KeySchedule), Mapping([Pair(Str(KeyInterval), Str(interval))]))]
  {
    AssignFresh([], KeyInterval, Str(interval));
    var m1 := FirstTwoKeys(dir);
    var p2 := Pair(Str(KeySchedule), Mapping([Pair(Str(KeyInterval), Str(interval))]));
    KeysDistinct();
    AssignFresh(m1, KeySchedule, p2.value);
    assert m1 + [p2] == [m1[0], m1[1], p2];
  }

  lemma FirstTwoKeys(dir: string) returns (m1: seq<Pair>)
    ensures m1 == Assign(Assign([], KeyDirectory, Str(dir)), KeyEcosystem, Str(EcosystemDocker))
    ensures m1 == [Pair(Str(KeyDirectory), Str(dir)), Pair(Str(KeyEcosystem), Str(EcosystemDocker))]
  {
    AssignFresh([], KeyDirectory, Str(dir));
    var m0 := Assign([], KeyDirectory, Str(dir));
    KeysDistinct();
    AssignFresh(m0, KeyEcosystem, Str(EcosystemDocker));
    m1 := Assign(m0, KeyEcosystem, Str(EcosystemDocker));
  }

  lemma KeysDistinct()
    ensures KeyDirectory != KeyEcosystem && KeyDirectory != KeySchedule && KeyEcosystem != KeySchedule
    ensures KeyVersion != KeyUpdates
  {
    assert |KeyDirectory| == 9 && |KeyEcosystem| == 17 && |KeySchedule| == 8;
    assert |KeyVersion| == 7 && |KeyUpdates| == 7 && KeyVersion[0] != KeyUpdates[0];
  }

  /** The entries appended for `dirs`, one per directory, in order. */
  function NewEntries(dirs: seq<string>, interval: string): seq<Value> {
    seq(|dirs|, i requires 0 <= i < |dirs| => NewEntry(dirs[i], interval))
  }

  /**
    `item` is a mapping whose `package-ecosystem` is the string `docker`
    and whose `directory` is the string `dir`.
   */
  predicate ConfiguresDocker(item: Value, dir: string) {
    && item.Mapping?
    && Lookup(item.pairs, KeyEcosystem) == Some(Str(EcosystemDocker))
    && Lookup(item.pairs, KeyDirectory) == Some(Str(dir))
  }

  /** What one pass of the loop over existing entries does with `item`. */
  datatype Effect =
    | Throws            // `update.get` is not a function on a scalar node
    | Skip              // not a docker entry, or its directory is not a string
    | Deletes(dir: string)

  function EffectOf(item: Value): (r: Effect)
    ensures r.Throws? <==> IsScalar(item)
    ensures r.Deletes? ==> ConfiguresDocker(item, r.dir)
    ensures forall d | ConfiguresDocker(item, d) :: r == Deletes(d)
  {
    match item
    case Mapping(pairs) =>
      if Lookup(pairs, KeyEcosystem) != Some(Str(EcosystemDocker)) then Skip
      else (
        match Lookup(pairs, KeyDirectory)
        case Some(Str(d)) => Deletes(d)
        case _ => Skip)
    case Sequence(_) => Skip       // `YAMLSeq.get` with a non-index key is `undefined`
    case _ => Throws
  }

  /** An entry names at most one directory. */
  lemma ConfiguresDockerFunctional(item: Value, d: string, d': string)
    requires ConfiguresDocker(item, d) && ConfiguresDocker(item, d')
    ensures d == d'
  {
  }

  /** `NewEntry` determines its directory. */
  lemma NewEntryInjective(d: string, d': string, interval: string)
    requires NewEntry(d, interval) == NewEntry(d', interval)
    ensures d == d'
  {
    NewEntryConfiguresDocker(d, interval);
    NewEntryConfiguresDocker(d', interval);
    ConfiguresDockerFunctional(NewEntry(d, interval), d, d');
  }

  /** Every built entry is a docker entry for its own directory. */
  lemma NewEntryConfiguresDocker(dir: string, interval: string)
    ensures ConfiguresDocker(NewEntry(dir, interval), dir)
    ensures EffectOf(NewEntry(dir, interval)) == Deletes(dir)
  {
  }
}
