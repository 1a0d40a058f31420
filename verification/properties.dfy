/**
  Properties of a run that relate several calls or several parts of the
  result: append-only updates, the rule deciding which directories get an
  entry, their order, coverage, and idempotence of a second run.
 */
module RunProperties {
  import opened Wrappers
  import opened Yaml
  import opened OrderedSets
  import opened Paths
  import opened Entries
  import opened Reconcile

  /** The updates a successful rewrite produces. */
  function UpdatesAfter(paths: seq<string>, doc: Document, interval: string): seq<Value>
    requires Run(paths, Existing(doc), interval).WriteExisting?
  {
    UpdatesOf(Run(paths, Existing(doc), interval).doc).value
  }

  /**
    Existing entries of every ecosystem are kept, unchanged and in order, as
    a prefix of the new `updates`; every pair of the document not under
    `updates`, whatever its key, stays as it was and where it was.
   */
  lemma AppendOnly(paths: seq<string>, doc: Document, interval: string)
    requires Run(paths, Existing(doc), interval).WriteExisting?
    ensures UpdatesOf(doc.contents).Some?
    ensures UpdatesOf(doc.contents).value <= UpdatesAfter(paths, doc, interval)
    ensures var out := Run(paths, Existing(doc), interval).doc;
            && out.Mapping? && doc.contents.Mapping?
            && |out.pairs| == |doc.contents.pairs|
            && (forall i | 0 <= i < |out.pairs| :: out.pairs[i].key == doc.contents.pairs[i].key)
            && (forall k | k != KeyUpdates :: Lookup(out.pairs, k) == Lookup(doc.contents.pairs, k))
            && (forall i | 0 <= i < |out.pairs| && !HasKey(doc.contents.pairs[i], KeyUpdates) ::
                  out.pairs[i] == doc.contents.pairs[i])
  {
  }

  /**
    A run appends an entry for `d` exactly when `d` is the directory of some
    discovered path and no existing entry is a docker entry whose directory
    is the string `d`.
   */
  lemma AddedIff(paths: seq<string>, items: seq<Value>, interval: string, d: string)
    ensures NewEntry(d, interval) in NewEntries(Added(paths, items), interval)
            <==> (exists j | 0 <= j < |paths| :: Dirname(paths[j]) == d)
                 && forall i | 0 <= i < |items| :: !ConfiguresDocker(items[i], d)
  {
    var added := Added(paths, items);
    var entries := NewEntries(added, interval);
    if NewEntry(d, interval) in entries {
      var k :| 0 <= k < |entries| && entries[k] == NewEntry(d, interval);
      NewEntryInjective(added[k], d, interval);
      assert d in added;
    }
    if d in added {
      var k :| 0 <= k < |added| && added[k] == d;
      assert entries[k] == NewEntry(d, interval);
    }
    var names := DirNames(paths);
    assert |names| == |paths|;
    if d in names {
      var j :| 0 <= j < |names| && names[j] == d;
      assert Dirname(paths[j]) == d;
    }
    forall j | 0 <= j < |paths| && Dirname(paths[j]) == d ensures d in names {
      assert names[j] == d;
    }
  }

  /**
    An entry that is not a mapping with `package-ecosystem: docker` and a
    string `directory`, inserted anywhere, never blocks an addition.
   */
  lemma NonDockerEntryNeverBlocks(paths: seq<string>, items: seq<Value>, e: Value, k: nat)
    requires k <= |items|
    requires !e.Mapping?
             || Lookup(e.pairs, KeyEcosystem) != Some(Str(EcosystemDocker))
             || Lookup(e.pairs, KeyDirectory).None?
             || !Lookup(e.pairs, KeyDirectory).value.Str?
    ensures Added(paths, items[..k] + [e] + items[k..]) == Added(paths, items)
  {
    var items' := items[..k] + [e] + items[k..];
    forall d ensures Configured(items', d) <==> Configured(items, d) {
      if Configured(items', d) {
        var i :| 0 <= i < |items'| && ConfiguresDocker(items'[i], d);
        assert i != k;
        ConfiguredAfterInsert(items, e, k, d, i);
      }
      if Configured(items, d) {
        var i :| 0 <= i < |items| && ConfiguresDocker(items[i], d);
        ConfiguredBeforeInsert(items, e, k, d, i);
      }
    }
    assert Blocked(items') == Blocked(items);
  }

  lemma ConfiguredAfterInsert(items: seq<Value>, e: Value, k: nat, d: string, i: nat)
    requires k <= |items| && i <= |items| && i != k
    requires ConfiguresDocker((items[..k] + [e] + items[k..])[i], d)
    ensures Configured(items, d)
  {
    var items' := items[..k] + [e] + items[k..];
    var j := if i < k then i else i - 1;
    assert items[j] == items'[i];
    assert ConfiguresDocker(items[j], d);
  }

  lemma ConfiguredBeforeInsert(items: seq<Value>, e: Value, k: nat, d: string, i: nat)
    requires k <= |items| && i < |items|
    requires ConfiguresDocker(items[i], d)
    ensures Configured(items[..k] + [e] + items[k..], d)
  {
    var items' := items[..k] + [e] + items[k..];
    if i < k {
      assert items'[i] == items[i];
    } else {
      assert items'[i + 1] == items[i];
    }
  }

  /**
    The appended directories are distinct and follow the order in which
    they first occur among the discovered paths' directories.
   */
  lemma AddedInFirstOccurrenceOrder(paths: seq<string>, items: seq<Value>)
    ensures NoDuplicates(Added(paths, items))
    ensures InFirstOccurrenceOrder(Added(paths, items), DirNames(paths))
  {
    DifferenceKeepsOrder(Discovered(paths), Blocked(items), DirNames(paths));
    OrderedHasNoDuplicates(Added(paths, items), DirNames(paths));
  }

  /** Appending entries for `dirs` blocks every directory in `dirs`, and only those more. */
  lemma BlockedAfterAppend(items: seq<Value>, dirs: seq<string>, interval: string)
    ensures Blocked(items + NewEntries(dirs, interval)) == Blocked(items) + set d | d in dirs
  {
    forall d ensures Configured(items + NewEntries(dirs, interval), d)
                     <==> Configured(items, d) || d in dirs {
      ConfiguredAfterAppend(items, dirs, interval, d);
    }
  }

  lemma ConfiguredAfterAppend(items: seq<Value>, dirs: seq<string>, interval: string, d: string)
    ensures Configured(items + NewEntries(dirs, interval), d) <==> Configured(items, d) || d in dirs
  {
    if d in dirs {
      var k :| 0 <= k < |dirs| && dirs[k] == d;
      AppendedEntryConfigures(items, dirs, interval, k);
    }
    if Configured(items, d) {
      var i :| 0 <= i < |items| && ConfiguresDocker(items[i], d);
      ConfiguredPrefix(items, NewEntries(dirs, interval), i, d);
    }
    if Configured(items + NewEntries(dirs, interval), d) {
      ConfiguredAppendedOnly(items, dirs, interval, d);
    }
  }

  lemma AppendedEntryConfigures(items: seq<Value>, dirs: seq<string>, interval: string, k: nat)
    requires k < |dirs|
    ensures Configured(items + NewEntries(dirs, interval), dirs[k])
  {
    var all := items + NewEntries(dirs, interval);
    NewEntryConfiguresDocker(dirs[k], interval);
    assert all[|items| + k] == NewEntry(dirs[k], interval);
  }

  lemma ConfiguredPrefix(items: seq<Value>, more: seq<Value>, i: nat, d: string)
    requires i < |items| && ConfiguresDocker(items[i], d)
    ensures Configured(items + more, d)
  {
    assert (items + more)[i] == items[i];
  }

  lemma ConfiguredAppendedOnly(items: seq<Value>, dirs: seq<string>, interval: string, d: string)
    requires Configured(items + NewEntries(dirs, interval), d)
    ensures Configured(items, d) || d in dirs
  {
    var all := items + NewEntries(dirs, interval);
    var i :| 0 <= i < |all| && ConfiguresDocker(all[i], d);
    if i < |items| {
      assert all[i] == items[i];
    } else {
      AppendedEntryNamesItsDir(items, dirs, interval, d, i);
    }
  }

  lemma AppendedEntryNamesItsDir(items: seq<Value>, dirs: seq<string>, interval: string, d: string, i: nat)
    requires |items| <= i < |items| + |dirs|
    requires ConfiguresDocker((items + NewEntries(dirs, interval))[i], d)
    ensures d in dirs
  {
    var all := items + NewEntries(dirs, interval);
    var k := i - |items|;
    assert all[i] == NewEntry(dirs[k], interval);
    NewEntryConfiguresDocker(dirs[k], interval);
    ConfiguresDockerFunctional(all[i], d, dirs[k]);
    assert dirs[k] in dirs;
  }


  /** Entries built by the action are mappings, so a later loop over them cannot throw. */
  lemma NewEntriesAreMappings(items: seq<Value>, dirs: seq<string>, interval: string)
    requires NoScalarItems(items)
    ensures NoScalarItems(items + NewEntries(dirs, interval))
  {
    var all := items + NewEntries(dirs, interval);
    forall i | 0 <= i < |all| ensures !IsScalar(all[i]) {
      if i < |items| {
        assert all[i] == items[i];
      }
    }
  }

  /** After a rewrite, every discovered directory has a docker entry. */
  lemma EveryDirectoryCovered(paths: seq<string>, doc: Document, interval: string)
    requires Run(paths, Existing(doc), interval).WriteExisting?
    ensures forall j | 0 <= j < |paths| ::
              exists i | 0 <= i < |UpdatesAfter(paths, doc, interval)| ::
                ConfiguresDocker(UpdatesAfter(paths, doc, interval)[i], Dirname(paths[j]))
  {
    var items := UpdatesOf(doc.contents).value;
    var added := Added(paths, items);
    BlockedAfterAppend(items, added, interval);
    forall j | 0 <= j < |paths|
      ensures Configured(UpdatesAfter(paths, doc, interval), Dirname(paths[j]))
    {
      assert DirNames(paths)[j] == Dirname(paths[j]);
    }
  }

  /**
    A directory the run adds ends up with exactly one docker entry: the
    added directories are distinct and no existing entry names them.
   */
  lemma AddedDirectoryHasOneEntry(paths: seq<string>, doc: Document, interval: string, d: string)
    requires Run(paths, Existing(doc), interval).WriteExisting?
    requires d in Added(paths, UpdatesOf(doc.contents).value)
    ensures Configured(UpdatesAfter(paths, doc, interval), d)
    ensures forall i, j | 0 <= i < j < |UpdatesAfter(paths, doc, interval)| ::
              !(ConfiguresDocker(UpdatesAfter(paths, doc, interval)[i], d)
                && ConfiguresDocker(UpdatesAfter(paths, doc, interval)[j], d))
  {
    var items := UpdatesOf(doc.contents).value;
    var added := Added(paths, items);
    var entries := NewEntries(added, interval);
    var all := UpdatesAfter(paths, doc, interval);
    var k :| 0 <= k < |added| && added[k] == d;
    AppendedEntryConfigures(items, added, interval, k);
    AddedInFirstOccurrenceOrder(paths, items);
    forall i | 0 <= i < |all| && ConfiguresDocker(all[i], d)
      ensures i >= |items| && added[i - |items|] == d
    {
      if i >= |items| {
        var k := i - |items|;
        NewEntryConfiguresDocker(added[k], interval);
        assert all[i] == NewEntry(added[k], interval);
      }
    }
  }

  /**
    Running again on the rewritten document, with any interval, adds
    nothing and writes the same document.
   */
  lemma RunIdempotent(paths: seq<string>, doc: Document, interval: string, interval': string)
    requires Run(paths, Existing(doc), interval).WriteExisting?
    ensures var out := Run(paths, Existing(doc), interval).doc;
            Run(paths, Existing(Document(out, false)), interval') == WriteExisting(out)
  {
    var out := Run(paths, Existing(doc), interval).doc;
    var items := UpdatesOf(doc.contents).value;
    var items' := items + NewEntries(Added(paths, items), interval);
    assert UpdatesOf(out) == Some(items');
    NewEntriesAreMappings(items, Added(paths, items), interval);
    SecondRunAddsNothing(paths, out, items, Added(paths, items), interval, interval');
  }

  /**
    Running again on a freshly created document, with any interval, adds
    nothing and writes the same document.
   */
  lemma FreshRunIdempotent(paths: seq<string>, interval: string, interval': string)
    requires |paths| > 0
    ensures var out := Run(paths, NoConfig, interval).doc;
            Run(paths, Existing(Document(out, false)), interval') == WriteExisting(out)
  {
    var out := Run(paths, NoConfig, interval).doc;
    var dirs := Discovered(paths);
    assert out.pairs[1] == Pair(Str(KeyUpdates), Sequence(NewEntries(dirs, interval)));
    assert HasKey(out.pairs[1], KeyUpdates) && !HasKey(out.pairs[0], KeyUpdates);
    assert Lookup(out.pairs, KeyUpdates) == Some(Sequence(NewEntries(dirs, interval)));
    assert [] + NewEntries(dirs, interval) == NewEntries(dirs, interval);
    NewEntriesAreMappings([], dirs, interval);
    SecondRunAddsNothing(paths, out, [], dirs, interval, interval');
  }

  /**
    The common step of both idempotence lemmas: once `updates` holds entries
    for every discovered directory not otherwise configured, a run rewrites
    the document unchanged.
   */
  lemma SecondRunAddsNothing(paths: seq<string>, out: Value, items: seq<Value>, added: seq<string>,
                             interval: string, interval': string)
    requires |paths| > 0
    requires UpdatesOf(out) == Some(items + NewEntries(added, interval))
    requires NoScalarItems(items + NewEntries(added, interval))
    requires forall d | d in Discovered(paths) :: d in Blocked(items) || d in added
    ensures Run(paths, Existing(Document(out, false)), interval') == WriteExisting(out)
  {
    var items' := items + NewEntries(added, interval);
    var dirs := Discovered(paths);
    BlockedAfterAppend(items, added, interval);
    DifferenceOfCovered(dirs, Blocked(items'));
    assert DeleteAll(dirs, items') == Success([]);
    assert items' + NewEntries([], interval') == items';
    AssignSame(out.pairs, KeyUpdates, Sequence(items'));
  }

  /**
    The `updates` of a fresh document (see `Reconcile.Run`) name every
    discovered directory ...
   */
  lemma FreshEntriesCover(paths: seq<string>, interval: string)
    ensures forall j | 0 <= j < |paths| ::
              Configured(NewEntries(Discovered(paths), interval), Dirname(paths[j]))
  {
    var dirs := Discovered(paths);
    var entries := NewEntries(dirs, interval);
    assert [] + entries == entries;
    forall j | 0 <= j < |paths| ensures Configured(entries, Dirname(paths[j])) {
      assert DirNames(paths)[j] == Dirname(paths[j]);
      ConfiguredAfterAppend([], dirs, interval, Dirname(paths[j]));
    }
  }

  /** ... and none of them twice. */
  lemma FreshEntriesDistinct(paths: seq<string>, interval: string)
    ensures NoDuplicates(NewEntries(Discovered(paths), interval))
  {
    var dirs := Discovered(paths);
    var entries := NewEntries(dirs, interval);
    forall i, j | 0 <= i < j < |entries| ensures entries[i] != entries[j] {
      if entries[i] == entries[j] {
        NewEntryInjective(dirs[i], dirs[j], interval);
      }
    }
  }
}
