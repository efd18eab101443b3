/** Several managers with private caches over the same files (src/config.py:219-324). */
module ConfigManagers {
  import opened Unicode
  import opened Json
  import opened Config

  /** The disk tier under the defaults. */
  function Defaulted(defaults: Dict, file: Dict): Dict {
    MergeDicts(defaults, file)
  }

  /******* The global tier, as seen by all managers *******/

  // `caches` holds the managers that have read the tier since they last dropped it.
  datatype World = World(file: Dict, caches: map<nat, Dict>)

  datatype Op =
    | Read(m: nat)
    | Invalidate(m: nat)
    | SetKey(m: nat, key: Text, value: Value)

  function Step(defaults: Dict, w: World, op: Op): World {
    match op
    case Read(m) => if m in w.caches then w else w.(caches := w.caches[m := Defaulted(defaults, w.file)])
    case Invalidate(m) => w.(caches := w.caches - {m})
    case SetKey(m, key, value) => World(Defaulted(defaults, w.file)[key := value], w.caches - {m})
  }

  function Run(defaults: Dict, start: World, ops: seq<Op>): World {
    if ops == [] then start else Step(defaults, Run(defaults, start, ops[..|ops| - 1]), ops[|ops| - 1])
  }

  /******* The project tier of one working directory *******/

  /** `set_project` writes the cached tier back. */
  function StepProject(w: World, op: Op): World {
    match op
    case Read(m) => if m in w.caches then w else w.(caches := w.caches[m := w.file])
    case Invalidate(m) => w.(caches := w.caches - {m})
    case SetKey(m, key, value) =>
      World((if m in w.caches then w.caches[m] else w.file)[key := value], w.caches - {m})
  }

  /******* The manager *******/

  class Disk {
    // A file that is missing, unreadable or not a JSON object is not in the map.
    var files: map<Text, Dict>

    constructor ()
      ensures files == map[]
    {
      files := map[];
    }

    function Content(path: Text): Dict
      reads this
    {
      if path in files then files[path] else map[]
    }
  }

  datatype Outcome = Done | NoGitRoot

  class ConfigManager {
    const id: nat
    const disk: Disk
    const defaults: Dict
    const globalPath: Text
    const projectPath: Option<Text>
    const localPath: Option<Text>
    var globalCache: Option<Dict>
    var projectCache: Option<Dict>
    var localCache: Option<Dict>

    constructor (id: nat, disk: Disk, defaults: Dict, globalPath: Text,
                 projectPath: Option<Text>, localPath: Option<Text>)
      ensures this.id == id && this.disk == disk && this.defaults == defaults
      ensures this.globalPath == globalPath && this.projectPath == projectPath && this.localPath == localPath
      ensures globalCache.None? && projectCache.None? && localCache.None?
    {
      this.id, this.disk, this.defaults := id, disk, defaults;
      this.globalPath, this.projectPath, this.localPath := globalPath, projectPath, localPath;
      globalCache, projectCache, localCache := None, None, None;
    }

    /** The global tier as this manager alone sees it. */
    function View(): World
      reads this, disk
    {
      World(disk.Content(globalPath), if globalCache.Some? then map[id := globalCache.value] else map[])
    }

    /** The project tier as this manager alone sees it. */
    function ProjectView(): World
      reads this, disk
    {
      World(if projectPath.Some? then disk.Content(projectPath.value) else map[],
            if projectCache.Some? then map[id := projectCache.value] else map[])
    }

    function Tier(cache: Option<Dict>, path: Option<Text>): Dict
      reads disk
    {
      if cache.Some? then cache.value else if path.Some? then disk.Content(path.value) else map[]
    }

    function GlobalTier(): Dict
      reads this, disk
    {
      if globalCache.Some? then globalCache.value else Defaulted(defaults, disk.Content(globalPath))
    }

    method InvalidateCaches()
      modifies this
      ensures View() == Step(defaults, old(View()), Invalidate(id))
      ensures ProjectView() == StepProject(old(ProjectView()), Invalidate(id))
      ensures localCache.None?
    {
      globalCache, projectCache, localCache := None, None, None;
    }

    method LoadGlobal() returns (tier: Dict)
      modifies this`globalCache
      ensures tier == old(GlobalTier()) && globalCache == Some(tier)
      ensures View() == Step(defaults, old(View()), Read(id))
    {
      if globalCache.None? {
        var merged := DeepMerge(defaults, disk.Content(globalPath));
        globalCache := Some(merged);
      }
      return globalCache.value;
    }

    /** Whatever the cache held, this is what is on disk. */
    method LoadGlobalForWrite() returns (tier: Dict)
      modifies this`globalCache
      ensures tier == Defaulted(defaults, disk.Content(globalPath)) && globalCache == Some(tier)
    {
      globalCache := None;
      tier := LoadGlobal();
    }

    method LoadProject() returns (tier: Dict)
      modifies this`projectCache
      ensures tier == old(Tier(projectCache, projectPath)) && projectCache == Some(tier)
      ensures ProjectView() == StepProject(old(ProjectView()), Read(id))
    {
      if projectCache.None? {
        projectCache := Some(if projectPath.Some? then disk.Content(projectPath.value) else map[]);
      }
      return projectCache.value;
    }

    method LoadLocal() returns (tier: Dict)
      modifies this`localCache
      ensures tier == old(Tier(localCache, localPath)) && localCache == Some(tier)
    {
      if localCache.None? {
        localCache := Some(if localPath.Some? then disk.Content(localPath.value) else map[]);
      }
      return localCache.value;
    }

    /** `trusted` is the verdict on the working directory at this moment. */
    method GetMerged(trusted: bool) returns (merged: Dict)
      modifies this
      ensures merged == MergedTiers(trusted, old(GlobalTier()), old(Tier(projectCache, projectPath)),
                                    old(Tier(localCache, localPath)))
      ensures View() == Step(defaults, old(View()), Read(id))
    {
      merged := LoadGlobal();
      var project := LoadProject();
      var local := LoadLocal();
      if !trusted {
        project := StripUntrusted(project);
        local := StripUntrusted(local);
      }
      merged := DeepMerge(merged, project);
      merged := DeepMerge(merged, local);
    }

    method SaveGlobal(data: Dict)
      modifies this`globalCache, disk
      ensures disk.files == old(disk.files)[globalPath := data] && globalCache.None?
    {
      disk.files := disk.files[globalPath := data];
      globalCache := None;
    }

    /** A write goes through what is on disk now, not through the cache. */
    method SetGlobal(key: Text, value: Value)
      modifies this`globalCache, disk
      ensures disk.files
           == old(disk.files)[globalPath := Defaulted(defaults, old(disk.Content(globalPath)))[key := value]]
      ensures View() == Step(defaults, old(View()), SetKey(id, key, value))
    {
      var config := LoadGlobalForWrite();
      config := config[key := value];
      SaveGlobal(config);
    }

    method SaveProject(data: Dict) returns (outcome: Outcome)
      modifies this`projectCache, disk
      ensures outcome.NoGitRoot? <==> projectPath.None?
      ensures match projectPath
        case None => disk.files == old(disk.files) && projectCache == old(projectCache)
        case Some(path) => disk.files == old(disk.files)[path := data] && projectCache.None?
    {
      if projectPath.None? {
        return NoGitRoot;
      }
      disk.files := disk.files[projectPath.value := data];
      projectCache := None;
      return Done;
    }

    /** The project tier is written back from the cache. */
    method SetProject(key: Text, value: Value) returns (outcome: Outcome)
      modifies this`projectCache, disk
      ensures outcome.NoGitRoot? <==> projectPath.None?
      ensures match projectPath
        case None => disk.files == old(disk.files)
        case Some(path) =>
          && disk.files == old(disk.files)[path := old(Tier(projectCache, projectPath))[key := value]]
          && projectCache.None?
      ensures projectPath.Some? ==> ProjectView() == StepProject(old(ProjectView()), SetKey(id, key, value))
    {
      var config := LoadProject();
      config := config[key := value];
      outcome := SaveProject(config);
    }
  }

  /******* Coherence over any run *******/

  /** What a run says about a key: its last value, and whether any key was set after. */
  datatype Standing = Never(setSince: bool) | Last(value: Value, setSince: bool)

  function StandingOf(ops: seq<Op>, key: Text): Standing {
    if ops == [] then Never(false)
    else
      var before := StandingOf(ops[..|ops| - 1], key);
      match ops[|ops| - 1]
      case SetKey(_, k, v) => if k == key then Last(v, false) else before.(setSince := true)
      case _ => before
  }

  /** `v` as it stands after a rewrite of the file: over the default for its key. */
  function Settled(defaults: Dict, key: Text, v: Value): Value {
    if key in defaults then Merge(defaults[key], v) else v
  }

  lemma DefaultedAt(defaults: Dict, file: Dict, key: Text)
    ensures key in Defaulted(defaults, file) <==> key in defaults || key in file
    ensures key in file ==> Defaulted(defaults, file)[key] == Settled(defaults, key, file[key])
    ensures key in defaults && key !in file ==> Defaulted(defaults, file)[key] == defaults[key]
  {
  }

  lemma DefaultedTwice(defaults: Dict, file: Dict)
    ensures Defaulted(defaults, Defaulted(defaults, file)) == Defaulted(defaults, file)
  {
    Absorbs(Table(defaults), Table(file));
    var once := Merge(Table(defaults), Table(file));
    assert once == Table(once.entries);
  }

  lemma SettledTwice(defaults: Dict, key: Text, v: Value)
    ensures Settled(defaults, key, Settled(defaults, key, v)) == Settled(defaults, key, v)
  {
    if key in defaults {
      Absorbs(defaults[key], v);
    }
  }

  /** What the file holds for every key after any run of any managers, whatever
      stale copies they hold. */
  lemma {:induction false} FileAfter(defaults: Dict, start: World, ops: seq<Op>, key: Text)
    ensures var file := Run(defaults, start, ops).file;
      match StandingOf(ops, key)
      case Never(since) => SameAt(file, if since then Defaulted(defaults, start.file) else start.file, key)
      case Last(v, since) => key in file && file[key] == if since then Settled(defaults, key, v) else v
  {
    hide Defaulted, Settled;
    if ops != [] {
      var before, last := ops[..|ops| - 1], ops[|ops| - 1];
      FileAfter(defaults, start, before, key);
      var file := Run(defaults, start, before).file;
      if last.SetKey? && last.key != key {
        DefaultedAt(defaults, file, key);
        DefaultedAt(defaults, start.file, key);
        match StandingOf(before, key)
        case Never(since) => if key in start.file { SettledTwice(defaults, key, start.file[key]); }
                             DefaultKeeps(defaults, file, start.file, key, since);
        case Last(v, since) => SettledTwice(defaults, key, v);
      }
    }
  }

  lemma DefaultKeeps(defaults: Dict, file: Dict, was: Dict, key: Text, since: bool)
    requires SameAt(file, if since then Defaulted(defaults, was) else was, key)
    ensures SameAt(Defaulted(defaults, file), Defaulted(defaults, was), key)
  {
    hide Defaulted, Settled;
    DefaultedAt(defaults, file, key);
    DefaultedAt(defaults, was, key);
    if since {
      DefaultedTwice(defaults, was);
      DefaultedAt(defaults, Defaulted(defaults, was), key);
    }
  }

  /** Every leaf of the last value set for a key stays on disk until the key is set
      again, whoever writes other keys in between. */
  lemma LeavesSurvive(defaults: Dict, start: World, ops: seq<Op>, key: Text, path: Path)
    requires StandingOf(ops, key).Last?
    ensures key in Run(defaults, start, ops).file
    ensures var v := StandingOf(ops, key).value;
      !KindAt(v, path).Absent? ==> KindAt(Run(defaults, start, ops).file[key], path) == KindAt(v, path)
  {
    hide Run, StandingOf, Merge, KindAt;
    FileAfter(defaults, start, ops, key);
    if key in defaults {
      PathLaw(defaults[key], StandingOf(ops, key).value, path);
    }
  }

  /** A cache is never invented: it is the tier as it stood at some point of the run. */
  lemma {:induction false} CachesAreSnapshots(defaults: Dict, start: World, ops: seq<Op>, m: nat)
    requires start.caches == map[] && m in Run(defaults, start, ops).caches
    ensures exists n | 0 <= n <= |ops| ::
      Run(defaults, start, ops).caches[m] == Defaulted(defaults, Run(defaults, start, ops[..n]).file)
  {
    hide Defaulted;
    var before, last := ops[..|ops| - 1], ops[|ops| - 1];
    if m in Run(defaults, start, before).caches {
      CachesAreSnapshots(defaults, start, before, m);
      var n :| 0 <= n <= |before|
        && Run(defaults, start, before).caches[m] == Defaulted(defaults, Run(defaults, start, before[..n]).file);
      assert before[..n] == ops[..n];
    } else {
      assert ops[..|ops| - 1] == before;
    }
  }

  /******* What a project write keeps *******/

  /** A project write leaves all other keys alone exactly when the writer's copy, if
      it has one, agrees with the file on them. */
  lemma ProjectWriteKeepsIff(w: World, m: nat, key: Text, value: Value)
    ensures (forall k: Text | k != key :: SameAt(StepProject(w, SetKey(m, key, value)).file, w.file, k))
      <==> (m in w.caches ==> forall k: Text | k != key :: SameAt(w.caches[m], w.file, k))
  {
    var after := StepProject(w, SetKey(m, key, value)).file;
    if m in w.caches {
      assert forall k: Text | k != key :: SameAt(after, w.file, k) <==> SameAt(w.caches[m], w.file, k);
    }
  }

  const KEY_A: Text := [0x61]
  const KEY_B: Text := [0x62]

  /** So another manager's key can be lost: read, the other's write, own write. */
  lemma ProjectWriteCanLose(v: Value)
    ensures
      var one := StepProject(World(map[], map[]), Read(1));
      var two := StepProject(one, SetKey(2, KEY_A, v));
      var three := StepProject(two, SetKey(1, KEY_B, v));
      KEY_A in two.file && KEY_A !in three.file
  {
    var one := StepProject(World(map[], map[]), Read(1));
    assert one.caches == map[1 := map[]];
    var two := StepProject(one, SetKey(2, KEY_A, v));
    assert 1 in two.caches && two.caches[1] == map[];
  }
}
