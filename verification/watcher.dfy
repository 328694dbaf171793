/** The file watcher's reaction to one file-system event: definitions that
    appear or change are (re)loaded and (re)scheduled, definitions that
    disappear are unscheduled and dropped from the registry under an id
    derived from the file name. */
module Watcher {
  import opened Base
  import opened Strings
  import opened JsMaps
  import opened FynTypes
  import opened FynLoader
  import opened Scheduling

  /** The two services the watcher drives. */
  datatype WatchState = WatchState(registry: Registry, scheduler: Scheduler)

  /** The file-system events the watcher subscribes to; any other name falls
      through the dispatch. */
  datatype FileEvent = Add | Change | Unlink | OtherEvent(name: string)

  const DefinitionSuffix := ".fyn.js"

  /** The id the watcher assumes for a deleted file: the base name without
      `.js`, with the first `.fyn` in it removed. */
  function DeriveFynId(path: string): (id: string)
    ensures !Contains(Basename(path, ".js"), ".fyn") ==> id == Basename(path, ".js")
    ensures Contains(Basename(path, ".js"), ".fyn") ==> |id| == |Basename(path, ".js")| - 4
  {
    ReplaceFirst(Basename(path, ".js"), ".fyn", "")
  }

  /** One event. Paths that do not end in `.fyn.js` and events other than
      `Add`, `Change` and `Unlink` change nothing; a failed load changes
      nothing either (the loader reports it and the watcher carries on). */
  function HandleFileChange(st: WatchState, event: FileEvent, path: string, src: FileSource,
                            accepts: string -> bool): (r: WatchState)
    ensures !EndsWith(path, DefinitionSuffix) ==> r == st
    ensures event.OtherEvent? ==> r == st
    ensures EndsWith(path, DefinitionSuffix) && (event.Add? || event.Change?) ==>
              if LoadFyn(st.registry, path, src).result.Err? then r == st
              else
                && Contents(r.registry) ==
                     Contents(st.registry)[LoadFyn(st.registry, path, src).result.value.config.fynId :=
                                             LoadFyn(st.registry, path, src).result.value]
                && r.scheduler == ScheduleFyn(st.scheduler, LoadFyn(st.registry, path, src).result.value, accepts)
    ensures EndsWith(path, DefinitionSuffix) && (event.Add? || event.Change?) ==>
              r.registry == LoadFyn(st.registry, path, src).registry
    ensures EndsWith(path, DefinitionSuffix) && event.Unlink? ==>
              && Contents(r.registry) == Contents(st.registry) - {DeriveFynId(path)}
              && Contents(r.scheduler.timers) == Contents(st.scheduler.timers) - {DeriveFynId(path)}
              && r.scheduler.nextHandle == st.scheduler.nextHandle
    ensures EndsWith(path, DefinitionSuffix) && event.Unlink? ==>
              && r.scheduler == UnscheduleFyn(st.scheduler, DeriveFynId(path))
              && r.registry == RemoveFyn(st.registry, DeriveFynId(path)).0
  {
    if !EndsWith(path, DefinitionSuffix) then st
    else if event.Add? || event.Change? then
      var loaded := LoadFyn(st.registry, path, src);
      match loaded.result
      case Ok(fyn) => WatchState(loaded.registry, ScheduleFyn(st.scheduler, fyn, accepts))
      case Err(_) => WatchState(loaded.registry, st.scheduler)
    else if event.Unlink? then
      var fynId := DeriveFynId(path);
      WatchState(RemoveFyn(st.registry, fynId).0, UnscheduleFyn(st.scheduler, fynId))
    else st
  }

  /** The base name, without `.js`, of `<dir>/<id>.fyn.js` is `<id>.fyn`. */
  lemma ConventionalBasename(dir: string, id: string)
    requires '/' !in id
    ensures EndsWith(dir + "/" + id + DefinitionSuffix, DefinitionSuffix)
    ensures Basename(dir + "/" + id + DefinitionSuffix, ".js") == id + ".fyn"
  {
    var stem := id + ".fyn";
    assert '/' !in stem by {
      forall i | 0 <= i < |stem| ensures stem[i] != '/' {
        if i < |id| { assert stem[i] == id[i]; }
      }
    }
    var path := (dir + "/") + (stem + ".js");
    assert path == dir + "/" + id + DefinitionSuffix by {
      assert DefinitionSuffix == ".fyn" + ".js";
    }
    assert path[|path| - |DefinitionSuffix|..] == DefinitionSuffix;
    BasenameAfterSeparator(dir + "/", stem, ".js");
  }

  /** For a file laid out by convention, `<dir>/<id>.fyn.js`, the derived id is
      the declared one, provided the id has no separator and does not itself
      contain `.fyn`. */
  lemma ConventionalPathGivesId(dir: string, id: string)
    requires '/' !in id
    requires !Contains(id, ".fyn")
    ensures EndsWith(dir + "/" + id + DefinitionSuffix, DefinitionSuffix)
    ensures DeriveFynId(dir + "/" + id + DefinitionSuffix) == id
  {
    ConventionalBasename(dir, id);
    ReplaceFirstOfSoleSuffix(id, ".fyn");
  }

  /** A name without a dot cannot contain `.fyn`. */
  lemma NoDotNoSuffix(id: string)
    requires '.' !in id
    ensures !Contains(id, ".fyn")
  {
    forall i: nat | i <= |id| ensures !OccursAt(id, ".fyn", i) {
      if i + 4 <= |id| {
        assert id[i..i + 4][0] == id[i] != '.';
      }
    }
  }

  /** `/defs/report.fyn.js` stands for `report`. */
  lemma ReportPathExample()
    ensures DeriveFynId("/defs/report.fyn.js") == "report"
  {
    assert "/defs" + "/" + "report" + DefinitionSuffix == "/defs/report.fyn.js";
    NoDotNoSuffix("report");
    ConventionalPathGivesId("/defs", "report");
  }

  /** Loading a file and then deleting it, when the file declares the id its
      name suggests, takes the definition out of the registry and its timer
      out of the scheduler, whatever was there before. */
  lemma AddThenUnlinkForgets(st: WatchState, path: string, src: FileSource, accepts: string -> bool)
    requires EndsWith(path, DefinitionSuffix)
    requires LoadFyn(st.registry, path, src).result.Ok?
    requires LoadFyn(st.registry, path, src).result.value.config.fynId == DeriveFynId(path)
    ensures var added := HandleFileChange(st, Add, path, src, accepts);
            var gone := HandleFileChange(added, Unlink, path, src, accepts);
            && Contents(gone.registry) == Contents(st.registry) - {DeriveFynId(path)}
            && Contents(gone.scheduler.timers) == Contents(st.scheduler.timers) - {DeriveFynId(path)}
  {
    var id := DeriveFynId(path);
    var fyn := LoadFyn(st.registry, path, src).result.value;
    var added := HandleFileChange(st, Add, path, src, accepts);
    var gone := HandleFileChange(added, Unlink, path, src, accepts);
    assert Contents(added.registry) == Contents(st.registry)[id := fyn];
    assert added.scheduler == ScheduleFyn(st.scheduler, fyn, accepts);
    assert Contents(gone.registry) == Contents(added.registry) - {id};
    assert Contents(gone.scheduler.timers) == Contents(added.scheduler.timers) - {id};
    UpdateThenRemove(Contents(st.registry), id, fyn);
    assert Contents(gone.registry) == Contents(st.registry) - {id};
    var c := Contents(st.scheduler.timers);
    if !Given(fyn.config.schedule) {
      assert Contents(added.scheduler.timers) == c;
    } else if accepts(fyn.config.schedule.value) {
      assert Contents(added.scheduler.timers) == c[id := st.scheduler.nextHandle];
      UpdateThenRemove(c, id, st.scheduler.nextHandle);
    } else {
      assert Contents(added.scheduler.timers) == c - {id};
      RemoveTwice(c, id);
    }
    assert Contents(gone.scheduler.timers) == c - {id};
  }

  /** A definition whose declared id differs from its file name survives the
      deletion of its file: it stays registered and keeps its timer. */
  lemma UnlinkKeepsMisnamedDefinition(st: WatchState, path: string, src: FileSource,
                                      accepts: string -> bool, declared: string)
    requires EndsWith(path, DefinitionSuffix)
    requires declared != DeriveFynId(path)
    requires declared in Contents(st.registry) && declared in Contents(st.scheduler.timers)
    ensures var gone := HandleFileChange(st, Unlink, path, src, accepts);
            && declared in Contents(gone.registry)
            && Contents(gone.registry)[declared] == Contents(st.registry)[declared]
            && declared in Contents(gone.scheduler.timers)
  {
    var gone := HandleFileChange(st, Unlink, path, src, accepts);
    var id := DeriveFynId(path);
    assert Contents(gone.registry) == Contents(st.registry) - {id};
    assert Contents(gone.scheduler.timers) == Contents(st.scheduler.timers) - {id};
    RemoveOther(Contents(st.registry), id, declared);
    RemoveOther(Contents(st.scheduler.timers), id, declared);
  }

  /** The first `.fyn` of a name whose leading part has no dot starts right
      after that part. */
  lemma FirstSuffixAfterDotless(a: string, rest: string)
    requires '.' !in a
    ensures IndexOf(a + ".fyn" + rest, ".fyn") == Some(|a|)
  {
    var s := a + ".fyn" + rest;
    assert s[|a|..|a| + 4] == ".fyn";
    forall j: nat | j < |a| ensures !OccursAt(s, ".fyn", j) {
      if j + 4 <= |s| {
        assert s[j..j + 4][0] == s[j] == a[j] != '.';
      }
    }
    assert OccursAt(s, ".fyn", |a|);
  }

  /** An id that itself contains `.fyn` is derived wrongly: the first
      occurrence is removed rather than the file's suffix, so
      `<dir>/<a>.fyn<b>.fyn.js` (say `my.fynance.fyn.js`) stands for
      `<a><b>.fyn` (`myance.fyn`). */
  lemma EmbeddedSuffixMisderived(dir: string, a: string, b: string)
    requires '/' !in a && '/' !in b && '.' !in a
    ensures DeriveFynId(dir + "/" + (a + ".fyn" + b) + DefinitionSuffix) == a + b + ".fyn"
  {
    EmbeddedBasename(dir, a, b);
    ConcatAssoc(a + ".fyn", b, ".fyn");
    RemoveEmbeddedSuffix(a, b);
  }

  lemma ConcatAssoc(x: string, y: string, z: string)
    ensures (x + y) + z == x + (y + z)
  {
  }

  /** Removing the first `.fyn` from `<a>.fyn<b>.fyn`, where `a` has no dot. */
  lemma RemoveEmbeddedSuffix(a: string, b: string)
    requires '.' !in a
    ensures ReplaceFirst(a + ".fyn" + (b + ".fyn"), ".fyn", "") == a + b + ".fyn"
  {
    var base := a + ".fyn" + (b + ".fyn");
    FirstSuffixAfterDotless(a, b + ".fyn");
    assert base[..|a|] == a;
    assert base[|a| + 4..] == b + ".fyn";
    assert a + "" + (b + ".fyn") == a + b + ".fyn";
  }

  /** The base name of `<dir>/<a>.fyn<b>.fyn.js`, without `.js`. */
  lemma EmbeddedBasename(dir: string, a: string, b: string)
    requires '/' !in a && '/' !in b
    ensures Basename(dir + "/" + (a + ".fyn" + b) + DefinitionSuffix, ".js") == (a + ".fyn" + b) + ".fyn"
  {
    NoSlashAround(a, b);
    ConventionalBasename(dir, a + ".fyn" + b);
  }

  lemma NoSlashAround(a: string, b: string)
    requires '/' !in a && '/' !in b
    ensures '/' !in a + ".fyn" + b
  {
    var id := a + ".fyn" + b;
    forall i | 0 <= i < |id| ensures id[i] != '/' {
      if i < |a| { assert id[i] == a[i]; }
      else if i >= |a| + 4 { assert id[i] == b[i - |a| - 4]; }
    }
  }
}
