/**
  Two example runs, worked through the model. Directory names
  are parameters, so each lemma covers e.g. `a` and `b/sub` at once.
 */
module Scenarios {
  import opened Wrappers
  import opened Yaml
  import opened OrderedSets
  import opened Paths
  import opened Entries
  import opened Reconcile

  const BuildFile := "Dockerfile"

  /**
    No configuration file and a `Dockerfile` in each of two directories:
    a new document with version 2 and one entry per directory, in order.
   */
  lemma FreshTwoDirectories(a: string, b: string, interval: string)
    requires a != "" && b != "" && a != b
    ensures Run([a + "/" + BuildFile, b + "/" + BuildFile], NoConfig, interval)
         == WriteNew(Mapping([
              Pair(Str("version"), Int(2)),
              Pair(Str("updates"), Sequence(NewEntries([a, b], interval)))]))
  {
    DiscoveredOfTwo(a, b);
  }

  /**
    An existing docker entry for `a` (of any shape) and `Dockerfile`s in `a`
    and `c`: only an entry for `c` is appended, after the untouched entry.
   */
  lemma ExistingEntryNotDuplicated(a: string, c: string, existing: Value, interval: string)
    requires a != "" && c != "" && a != c
    requires ConfiguresDocker(existing, a)
    ensures Run([a + "/" + BuildFile, c + "/" + BuildFile],
                Existing(Document(Mapping([Pair(Str("version"), Int(2)),
                                           Pair(Str("updates"), Sequence([existing]))]),
                                  false)),
                interval)
         == WriteExisting(Mapping([
              Pair(Str("version"), Int(2)),
              Pair(Str("updates"), Sequence([existing] + NewEntries([c], interval)))]))
  {
    DiscoveredOfTwo(a, c);
    UpdatesOfSecondPair(Pair(Str("version"), Int(2)), [existing]);
    BlockedByOneEntry(existing, a);
    DifferenceDropsFirst(a, c);
    var paths := [a + "/" + BuildFile, c + "/" + BuildFile];
    var contents := Mapping([Pair(Str("version"), Int(2)), Pair(Str("updates"), Sequence([existing]))]);
    assert NoScalarItems([existing]);
    assert DeleteAll([a, c], [existing]) == Success([c]);
    var items' := [existing] + NewEntries([c], interval);
    RunOnExisting(paths, contents, [existing], [c], interval);
    AssignSecondPair(Pair(Str("version"), Int(2)), Pair(Str("updates"), Sequence([existing])),
                     KeyUpdates, Sequence(items'));
  }

  /** How `Run` unfolds on an existing, well-formed document. */
  lemma RunOnExisting(paths: seq<string>, contents: Value, items: seq<Value>, remaining: seq<string>,
                      interval: string)
    requires |paths| > 0 && UpdatesOf(contents) == Some(items)
    requires DeleteAll(Discovered(paths), items) == Success(remaining)
    ensures Run(paths, Existing(Document(contents, false)), interval)
         == WriteExisting(WithUpdates(contents, items + NewEntries(remaining, interval)))
  {
  }

  lemma UpdatesOfSecondPair(first: Pair, items: seq<Value>)
    requires !HasKey(first, KeyUpdates)
    ensures UpdatesOf(Mapping([first, Pair(Str(KeyUpdates), Sequence(items))])) == Some(items)
  {
    var pairs := [first, Pair(Str(KeyUpdates), Sequence(items))];
    assert HasKey(pairs[1], KeyUpdates) && !HasKey(pairs[0], KeyUpdates);
  }

  lemma AssignSecondPair(first: Pair, second: Pair, k: string, v: Value)
    requires !HasKey(first, k) && HasKey(second, k)
    ensures Assign([first, second], k, v) == [first, Pair(second.key, v)]
  {
    var pairs := [first, second];
    assert HasKey(pairs[1], k) && !HasKey(pairs[0], k);
    assert FindKey(pairs, k) == Some(1);
  }

  lemma BlockedByOneEntry(existing: Value, a: string)
    requires ConfiguresDocker(existing, a)
    ensures Blocked([existing]) == {a}
  {
    assert ConfiguresDocker([existing][0], a);
    forall d ensures Configured([existing], d) <==> d == a {
      if Configured([existing], d) {
        assert ConfiguresDocker([existing][0], d);
        ConfiguresDockerFunctional(existing, d, a);
      }
    }
  }

  lemma DifferenceDropsFirst(x: string, y: string)
    requires x != y
    ensures Difference([x, y], {x}) == [y]
  {
    assert [x, y][1..] == [y];
    assert [y][1..] == [];
    assert Difference([y], {x}) == [y] + Difference([], {x});
  }

  lemma DiscoveredOfTwo(a: string, b: string)
    requires a != "" && b != "" && a != b
    ensures Discovered([a + "/" + BuildFile, b + "/" + BuildFile]) == [a, b]
  {
    var paths := [a + "/" + BuildFile, b + "/" + BuildFile];
    DirnameOfJoin(a, BuildFile);
    DirnameOfJoin(b, BuildFile);
    assert DirNames(paths) == [a, b];
    DedupOfDistinctPair(a, b);
  }

  lemma DedupOfDistinctPair(x: string, y: string)
    requires x != y
    ensures Dedup([x, y]) == [x, y]
  {
    assert [x][..0] == [];
    assert Dedup([x]) == [x];
    assert [x, y][..1] == [x];
  }
}
