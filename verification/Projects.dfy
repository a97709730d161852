/** Projects: the store, the cache before it, and the runs of both. */
module Projects {
  import opened Common
  import opened CacheKeys
  import ProjectKeys

  datatype Project = Project(organizationId: string, name: string, key: string, description: Option<string>,
                             status: Status, createdById: string, createdAt: nat, updatedAt: nat)

  /** The project rows by id. */
  type Table = map<string, Project>

  datatype Page = Page(items: seq<(string, Project)>, total: nat)

  /** What findPaginatedProjects makes of the rows of one organization. */
  type Pager = (Table, Query) -> Page

  datatype Entry = One(id: string, project: Project) | Listed(page: Page) | Other(text: string)

  /** The cache by the text of its keys. */
  type Cache = map<string, Entry>

  datatype Answer = ProjectIs(id: string, project: Project) | PageIs(page: Page) | Deleted | NotFound | KeyAlreadyExists

  datatype Changes = Changes(name: Option<string>, key: Option<string>, description: Option<Option<string>>,
                             status: Option<Status>)

  // ---- The store without a cache ---------------------------------------------------------------------------------

  function OfOrganization(table: Table, o: string): Table {
    map p | p in table && table[p].organizationId == o :: table[p]
  }

  function KeysOf(table: Table, o: string): set<string> {
    set p | p in table && table[p].organizationId == o :: table[p].key
  }

  predicate Has(table: Table, o: string, p: string) {
    p in table && table[p].organizationId == o
  }

  function Changed(project: Project, c: Changes, now: nat): Project {
    project.(name := if c.name.Some? && c.name.value != "" then c.name.value else project.name,
             key := if c.key.Some? && c.key.value != "" then c.key.value else project.key,
             description := if c.description.None? then project.description
                            else if c.description.value == Some("") then None
                            else c.description.value,
             status := if c.status.Some? then c.status.value else project.status,
             updatedAt := now)
  }

  /** Whether a change asks for a key that another project of the organization has. */
  predicate KeyConflict(table: Table, o: string, p: string, c: Changes)
    requires p in table
  {
    c.key.Some? && c.key.value != "" && c.key.value != table[p].key && c.key.value in KeysOf(table, o)
  }

  /** Whether Redis answers the commands of one cached read; the service swallows their failures. */
  datatype Redis = Redis(gets: bool, sets: bool)

  datatype Step =
    | GetProjectById(organizationId: string, id: string, redis: Redis)
    | GetProjects(organizationId: string, query: Query, redis: Redis)
    | CreateProject(organizationId: string, id: string, name: string, customKey: Option<string>,
                    description: Option<string>, status: Status, userId: string, now: nat)
    | UpdateProject(organizationId: string, id: string, changes: Changes, now: nat)
    | DeleteProject(organizationId: string, id: string)
    | EntryExpires(text: string)
    | OtherCacheUse(key: Key, entry: Option<Entry>)

  /** New ids are fresh, organization ids are UUIDs, and other services only use their own kinds of keys. */
  predicate StepOk(table: Table, step: Step) {
    match step
    case EntryExpires(_) => true
    case OtherCacheUse(key, _) => key.Valid() && (key.OrganizationKey? || key.UserOrganizationsKey?)
    case CreateProject(o, id, _, _, _, _, _, _) => PlainId(o) && id !in table
    case _ => PlainId(step.organizationId)
  }

  function NewProject(table: Table, o: string, name: string, customKey: Option<string>, description: Option<string>,
                      status: Status, userId: string, now: nat): Option<Project>
  {
    match ProjectKeys.UniqueKey(KeysOf(table, o), name, customKey)
    case KeyAlreadyExists => None
    case Key(key) => Some(Project(o, name, key, description, status, userId, now, now))
  }

  /** What a step does to the rows, and the answer of a service that always asks the repository. */
  function Stored(pager: Pager, table: Table, step: Step): (Table, Option<Answer>) {
    match step
    case GetProjectById(o, p, _) => (table, Some(if Has(table, o, p) then ProjectIs(p, table[p]) else NotFound))
    case GetProjects(o, q, _) => (table, Some(PageIs(pager(OfOrganization(table, o), q))))
    case CreateProject(o, id, name, customKey, description, status, userId, now) => (
      match NewProject(table, o, name, customKey, description, status, userId, now)
      case None => (table, Some(KeyAlreadyExists))
      case Some(project) => (table[id := project], Some(ProjectIs(id, project))))
    case UpdateProject(o, p, changes, now) =>
      if !Has(table, o, p) then (table, Some(NotFound))
      else if KeyConflict(table, o, p, changes) then (table, Some(KeyAlreadyExists))
      else var project := Changed(table[p], changes, now); (table[p := project], Some(ProjectIs(p, project)))
    case DeleteProject(o, p) =>
      if !Has(table, o, p) then (table, Some(NotFound)) else (table - {p}, Some(Deleted))
    case _ => (table, None)
  }

  // ---- The cache ---------------------------------------------------------------------------------------------------

  function WithoutMatches(cache: Cache, pattern: string): Cache {
    map t | t in cache && !Matches(pattern, t) :: cache[t]
  }

  /** getOrSet: the cached entry if it can be read, or the fetched one, which is then cached if it can be. */
  function GotOrSet(cache: Cache, text: string, fetched: Option<Entry>, redis: Redis): (Cache, Option<Entry>) {
    if redis.gets && text in cache then (cache, Some(cache[text]))
    else if fetched.Some? then (if redis.sets then cache[text := fetched.value] else cache, fetched)
    else (cache, None)
  }

  function FetchProject(table: Table, o: string, p: string): Option<Entry> {
    if Has(table, o, p) then Some(One(p, table[p])) else None
  }

  /** Reading a cached entry as the caller's type. */
  function AnswerOf(entry: Option<Entry>): Option<Answer> {
    match entry
    case None => Some(NotFound)
    case Some(One(id, project)) => Some(ProjectIs(id, project))
    case Some(Listed(page)) => Some(PageIs(page))
    case Some(Other(_)) => None
  }

  datatype System = System(table: Table, cache: Cache)

  function Invalidated(cache: Cache, step: Step): Cache
    requires step.CreateProject? || step.UpdateProject? || step.DeleteProject?
  {
    var o := step.organizationId;
    var kept := if step.CreateProject? then cache else cache - {ProjectKey(o, step.id).Text()};
    WithoutMatches(kept, ProjectsListPattern(o))
  }

  /** A step of the cached service. Entries may expire at any time; other services keep entries of their own kinds. */
  function Take(pager: Pager, s: System, step: Step): (System, Option<Answer>) {
    match step
    case GetProjectById(o, p, redis) =>
      var (cache, entry) := GotOrSet(s.cache, ProjectKey(o, p).Text(), FetchProject(s.table, o, p), redis);
      (s.(cache := cache), AnswerOf(entry))
    case GetProjects(o, q, redis) =>
      var (cache, entry) := GotOrSet(s.cache, ProjectsListKey(o, q).Text(),
                                     Some(Listed(pager(OfOrganization(s.table, o), q))), redis);
      (s.(cache := cache), AnswerOf(entry))
    case EntryExpires(text) => (s.(cache := s.cache - {text}), None)
    case OtherCacheUse(key, entry) =>
      (s.(cache := if entry.Some? then s.cache[key.Text() := entry.value] else s.cache - {key.Text()}), None)
    case _ =>
      var (table, answer) := Stored(pager, s.table, step);
      if answer == Some(NotFound) || answer == Some(KeyAlreadyExists) then (s, answer)
      else (System(table, Invalidated(s.cache, step)), answer)
  }

  lemma TakeCreated(pager: Pager, s: System, step: Step, project: Project)
    requires step.CreateProject?
    requires NewProject(s.table, step.organizationId, step.name, step.customKey, step.description, step.status,
                        step.userId, step.now)
             == Some(project)
    ensures Take(pager, s, step)
            == (System(s.table[step.id := project], WithoutMatches(s.cache, ProjectsListPattern(step.organizationId))),
                                     Some(ProjectIs(step.id, project)))
  {
  }

  // ---- Coherence ----------------------------------------------------------------------------------------------------

  /** The entry that a key may have: what the repository would return for it now. */
  ghost predicate EntryOk(pager: Pager, table: Table, key: Key, entry: Entry) {
    match key
    case ProjectKey(o, p) => Has(table, o, p) && entry == One(p, table[p])
    case ProjectsListKey(o, q) => entry == Listed(pager(OfOrganization(table, o), q))
    case _ => true
  }

  ghost predicate KeyOk(pager: Pager, s: System, key: Key) {
    key.Valid() && key.Text() in s.cache ==> EntryOk(pager, s.table, key, s.cache[key.Text()])
  }

  ghost predicate Coherent(pager: Pager, s: System) {
    forall key: Key :: KeyOk(pager, s, key)
  }

  lemma SetKeepsCoherent(pager: Pager, s: System, key: Key, entry: Entry)
    requires Coherent(pager, s) && key.Valid() && EntryOk(pager, s.table, key, entry)
    ensures Coherent(pager, s.(cache := s.cache[key.Text() := entry]))
  {
    var t := s.(cache := s.cache[key.Text() := entry]);
    forall k: Key ensures KeyOk(pager, t, k) {
      assert KeyOk(pager, s, k);
      if k.Valid() && k.Text() == key.Text() {
        KeysAreInjective(k, key);
      }
    }
  }

  lemma FewerEntriesKeepCoherent(pager: Pager, s: System, cache: Cache)
    requires Coherent(pager, s)
    requires forall t :: t in cache ==> t in s.cache && cache[t] == s.cache[t]
    ensures Coherent(pager, s.(cache := cache))
  {
    var t := s.(cache := cache);
    forall k: Key ensures KeyOk(pager, t, k) {
      assert KeyOk(pager, s, k);
    }
  }

  /** What an entry depends on: a project's on its row, a list's on the rows of its organization. */
  lemma EntryStaysOk(pager: Pager, before: Table, after: Table, id: string, o: string, key: Key, entry: Entry)
    requires EntryOk(pager, before, key, entry)
    requires before - {id} == after - {id}
    requires id in before ==> before[id].organizationId == o
    requires id in after ==> after[id].organizationId == o
    requires key.ProjectKey? ==> !(key.organizationId == o && key.projectId == id)
    requires key.ProjectsListKey? ==> key.organizationId != o
    ensures EntryOk(pager, after, key, entry)
  {
    forall p | p != id
      ensures p in before.Keys <==> p in after.Keys
      ensures p in before ==> before[p] == after[p]
    {
      assert p in before <==> p in before - {id};
      assert p in after <==> p in after - {id};
      assert p in before ==> before[p] == (before - {id})[p];
      assert p in after ==> after[p] == (after - {id})[p];
    }
    if key.ProjectsListKey? {
      var other := key.organizationId;
      assert OfOrganization(before, other).Keys == OfOrganization(after, other).Keys;
      assert OfOrganization(before, other) == OfOrganization(after, other);
    }
  }

  lemma WriteKeepsCoherent(pager: Pager, s: System, step: Step, after: Table)
    requires step.CreateProject? || step.UpdateProject? || step.DeleteProject?
    requires Coherent(pager, s) && PlainId(step.organizationId)
    requires s.table - {step.id} == after - {step.id}
    requires step.id in s.table ==> s.table[step.id].organizationId == step.organizationId && !step.CreateProject?
    requires step.id in after ==> after[step.id].organizationId == step.organizationId
    ensures Coherent(pager, System(after, Invalidated(s.cache, step)))
  {
    var o := step.organizationId;
    var t := System(after, Invalidated(s.cache, step));
    forall k: Key ensures KeyOk(pager, t, k) {
      assert KeyOk(pager, s, k);
      if k.Valid() && k.Text() in t.cache {
        PatternMatchesIff(o, k);
        EntryStaysOk(pager, s.table, after, step.id, o, k, s.cache[k.Text()]);
      }
    }
  }

  lemma StoredChangesOneRow(pager: Pager, table: Table, step: Step)
    requires step.CreateProject? || step.UpdateProject? || step.DeleteProject?
    requires StepOk(table, step)
    ensures var (after, answer) := Stored(pager, table, step);
            && (answer == Some(NotFound) || answer == Some(KeyAlreadyExists) ==> after == table)
            && (answer != Some(NotFound) && answer != Some(KeyAlreadyExists) ==>
                  && table - {step.id} == after - {step.id}
                  && (step.id in table ==> table[step.id].organizationId == step.organizationId && !step.CreateProject?)
                  && (step.id in after ==> after[step.id].organizationId == step.organizationId))
  {
    var after := Stored(pager, table, step).0;
    assert table - {step.id} == after - {step.id};
  }

  lemma TakeKeepsCoherent(pager: Pager, s: System, step: Step)
    requires Coherent(pager, s) && StepOk(s.table, step)
    ensures Coherent(pager, Take(pager, s, step).0)
  {
    match step
    case GetProjectById(o, p, _) =>
      if Has(s.table, o, p) {
        SetKeepsCoherent(pager, s, ProjectKey(o, p), One(p, s.table[p]));
      }
    case GetProjects(o, q, _) =>
      SetKeepsCoherent(pager, s, ProjectsListKey(o, q), Listed(pager(OfOrganization(s.table, o), q)));
    case EntryExpires(text) =>
      FewerEntriesKeepCoherent(pager, s, s.cache - {text});
    case OtherCacheUse(key, entry) =>
      if entry.Some? {
        SetKeepsCoherent(pager, s, key, entry.value);
      } else {
        FewerEntriesKeepCoherent(pager, s, s.cache - {key.Text()});
      }
    case _ =>
      StoredChangesOneRow(pager, s.table, step);
      var (after, answer) := Stored(pager, s.table, step);
      if answer != Some(NotFound) && answer != Some(KeyAlreadyExists) {
        WriteKeepsCoherent(pager, s, step, after);
      }
  }

  /** With a coherent cache, a step answers what the repository alone would answer, and does the same to the rows. */
  lemma CoherentAnswers(pager: Pager, s: System, step: Step)
    requires Coherent(pager, s) && StepOk(s.table, step)
    ensures (Take(pager, s, step).0.table, Take(pager, s, step).1) == Stored(pager, s.table, step)
  {
    match step
    case GetProjectById(o, p, _) => assert KeyOk(pager, s, ProjectKey(o, p));
    case GetProjects(o, q, _) => assert KeyOk(pager, s, ProjectsListKey(o, q));
    case CreateProject(_, _, _, _, _, _, _, _) => StoredChangesOneRow(pager, s.table, step);
    case UpdateProject(_, _, _, _) => StoredChangesOneRow(pager, s.table, step);
    case DeleteProject(_, _) => StoredChangesOneRow(pager, s.table, step);
    case _ =>
  }

  // ---- Runs ---------------------------------------------------------------------------------------------------------

  function RunStored(pager: Pager, table: Table, steps: seq<Step>): (Table, seq<Option<Answer>>)
    decreases |steps|
  {
    if steps == [] then (table, [])
    else
      var (next, answer) := Stored(pager, table, steps[0]);
      var (last, answers) := RunStored(pager, next, steps[1..]);
      (last, [answer] + answers)
  }

  function RunCached(pager: Pager, s: System, steps: seq<Step>): (System, seq<Option<Answer>>)
    decreases |steps|
  {
    if steps == [] then (s, [])
    else
      var (next, answer) := Take(pager, s, steps[0]);
      var (last, answers) := RunCached(pager, next, steps[1..]);
      (last, [answer] + answers)
  }

  ghost predicate StepsOk(pager: Pager, table: Table, steps: seq<Step>)
    decreases |steps|
  {
    steps != [] ==> StepOk(table, steps[0]) && StepsOk(pager, Stored(pager, table, steps[0]).0, steps[1..])
  }

  lemma {:induction false} CoherentRuns(pager: Pager, s: System, steps: seq<Step>)
    requires Coherent(pager, s) && StepsOk(pager, s.table, steps)
    ensures var (last, answers) := RunCached(pager, s, steps);
            Coherent(pager, last) && (last.table, answers) == RunStored(pager, s.table, steps)
    decreases |steps|
  {
    if steps != [] {
      TakeKeepsCoherent(pager, s, steps[0]);
      CoherentAnswers(pager, s, steps[0]);
      CoherentRuns(pager, Take(pager, s, steps[0]).0, steps[1..]);
    }
  }

  lemma EmptyCacheIsCoherent(pager: Pager, table: Table)
    ensures Coherent(pager, System(table, map[]))
  {
    forall k: Key ensures KeyOk(pager, System(table, map[]), k) {
    }
  }

  /**
   The cache is transparent: in every run that begins with an empty cache, over any rows and with entries expiring at
   any time, every cached project and page stays what the repository would return, and every call is answered as if
   there were no cache.
   */
  lemma CacheIsTransparent(pager: Pager, table: Table, steps: seq<Step>)
    requires StepsOk(pager, table, steps)
    ensures var (last, answers) := RunCached(pager, System(table, map[]), steps);
            Coherent(pager, last) && (last.table, answers) == RunStored(pager, table, steps)
  {
    EmptyCacheIsCoherent(pager, table);
    CoherentRuns(pager, System(table, map[]), steps);
  }

  // ---- Keys stay unique ---------------------------------------------------------------------------------------------

  predicate SameKey(table: Table, p: string, q: string) {
    p in table && q in table && table[p].organizationId == table[q].organizationId && table[p].key == table[q].key
  }

  ghost predicate KeysAreUnique(table: Table) {
    forall p, q :: SameKey(table, p, q) ==> p == q
  }

  /** A row may be written when its key is its own or in no row of the organization. */
  lemma WriteKeepsUnique(table: Table, id: string, project: Project)
    requires KeysAreUnique(table)
    requires project.key !in KeysOf(table, project.organizationId)
             || (id in table && table[id].organizationId == project.organizationId && table[id].key == project.key)
    ensures KeysAreUnique(table[id := project])
  {
    var after := table[id := project];
    forall p, q | SameKey(after, p, q) ensures p == q {
      if p != id && q != id {
        assert SameKey(table, p, q);
      } else if p != q {
        var other := if p == id then q else p;
        assert table[other].key in KeysOf(table, project.organizationId);
        assert SameKey(table, other, id);
        assert false;
      }
    }
  }

  /** A change is refused exactly when it asks for a key that another project of the organization has. */
  lemma KeyConflictIff(table: Table, o: string, p: string, c: Changes)
    requires KeysAreUnique(table) && Has(table, o, p)
    ensures KeyConflict(table, o, p, c) <==>
            c.key.Some? && c.key.value != "" && exists q :: q != p && Has(table, o, q) && table[q].key == c.key.value
  {
    if KeyConflict(table, o, p, c) {
      var q :| q in table && table[q].organizationId == o && table[q].key == c.key.value;
      assert q != p && Has(table, o, q);
    }
    if c.key.Some? && c.key.value != "" && exists q :: q != p && Has(table, o, q) && table[q].key == c.key.value {
      var q :| q != p && Has(table, o, q) && table[q].key == c.key.value;
      assert !SameKey(table, p, q);
    }
  }

  lemma StoredKeepsUnique(pager: Pager, table: Table, step: Step)
    requires KeysAreUnique(table)
    ensures KeysAreUnique(Stored(pager, table, step).0)
  {
    match step
    case CreateProject(o, id, name, customKey, description, status, userId, now) =>
      var project := NewProject(table, o, name, customKey, description, status, userId, now);
      if project.Some? {
        WriteKeepsUnique(table, id, project.value);
      }
    case UpdateProject(o, p, changes, now) =>
      if Has(table, o, p) && !KeyConflict(table, o, p, changes) {
        WriteKeepsUnique(table, p, Changed(table[p], changes, now));
      }
    case DeleteProject(o, p) =>
      forall a, b | SameKey(table - {p}, a, b) ensures a == b {
        assert SameKey(table, a, b);
      }
    case _ =>
  }

  /** In every run the projects of an organization have different keys. */
  lemma {:induction false} EveryRunKeepsUnique(pager: Pager, table: Table, steps: seq<Step>)
    requires KeysAreUnique(table)
    ensures KeysAreUnique(RunStored(pager, table, steps).0)
    decreases |steps|
  {
    if steps != [] {
      StoredKeepsUnique(pager, table, steps[0]);
      EveryRunKeepsUnique(pager, Stored(pager, table, steps[0]).0, steps[1..]);
    }
  }

  // ---- What the calls do to the rows --------------------------------------------------------------------------------

  /** All rows but this one are as before. */
  ghost predicate OthersStay(before: Table, after: Table, p: string) {
    forall q :: q != p ==> (q in after <==> q in before) && (q in before ==> q in after && after[q] == before[q])
  }

  lemma DeleteEffect(pager: Pager, table: Table, o: string, p: string)
    ensures var (after, answer) := Stored(pager, table, DeleteProject(o, p));
            if p in table && table[p].organizationId == o then
              answer == Some(Deleted) && p !in after && OthersStay(table, after, p)
            else answer == Some(NotFound) && after == table
  {
  }

  /** After a deletion the service answers NotFound, cached or not, until the id is used again. */
  lemma DeletedIsNotFound(pager: Pager, s: System, o: string, p: string, redis: Redis)
    requires Coherent(pager, s) && PlainId(o)
    ensures var (after, answer) := Take(pager, s, DeleteProject(o, p));
            answer == Some(Deleted) || answer == Some(NotFound) ==>
              Take(pager, after, GetProjectById(o, p, redis)).1 == Some(NotFound)
  {
    var after := Take(pager, s, DeleteProject(o, p)).0;
    TakeKeepsCoherent(pager, s, DeleteProject(o, p));
    CoherentAnswers(pager, s, DeleteProject(o, p));
    CoherentAnswers(pager, after, GetProjectById(o, p, redis));
  }

  /**
   The fields that an update asks for, empty names and keys asking for none and an empty description for its removal.
   */
  ghost predicate HasRequested(before: Project, after: Project, c: Changes, now: nat) {
    && after.organizationId == before.organizationId && after.createdById == before.createdById
    && after.createdAt == before.createdAt && after.updatedAt == now
    && (c.name.Some? && c.name.value != "" ==> after.name == c.name.value)
    && (c.name.None? || c.name.value == "" ==> after.name == before.name)
    && (c.key.Some? && c.key.value != "" ==> after.key == c.key.value)
    && (c.key.None? || c.key.value == "" ==> after.key == before.key)
    && (c.description.None? ==> after.description == before.description)
    && (c.description == Some(None) || c.description == Some(Some("")) ==> after.description == None)
    && (forall text :: text != "" && c.description == Some(Some(text)) ==> after.description == Some(text))
    && (c.status.Some? ==> after.status == c.status.value) && (c.status.None? ==> after.status == before.status)
  }

  lemma UpdateEffect(pager: Pager, table: Table, o: string, p: string, c: Changes, now: nat)
    requires KeysAreUnique(table)
    ensures var (after, answer) := Stored(pager, table, UpdateProject(o, p, c, now));
            if !(p in table && table[p].organizationId == o) then answer == Some(NotFound) && after == table
            else if exists q :: q != p && q in table && table[q].organizationId == o && c.key == Some(table[q].key)
                                && table[q].key != "" then
              answer == Some(KeyAlreadyExists) && after == table
            else
              && p in after && answer == Some(ProjectIs(p, after[p])) && OthersStay(table, after, p)
              && HasRequested(table[p], after[p], c, now)
  {
    if Has(table, o, p) {
      KeyConflictIff(table, o, p, c);
      assert forall q :: q in table && table[q].organizationId == o ==> Has(table, o, q);
    }
  }

  /**
   A new project is stored with what was given, under the custom key unless taken, or the first free generated one.
   */
  lemma CreateEffect(pager: Pager, table: Table, o: string, id: string, name: string, customKey: Option<string>,
                     description: Option<string>, status: Status, userId: string, now: nat)
    requires id !in table
    ensures var (after, answer) := Stored(pager, table,
                                          CreateProject(o, id, name, customKey, description, status, userId, now));
            var taken := set p | p in table && table[p].organizationId == o :: table[p].key;
            if customKey.Some? && customKey.value != "" && customKey.value in taken then
              answer == Some(KeyAlreadyExists) && after == table
            else
              && id in after && answer == Some(ProjectIs(id, after[id])) && OthersStay(table, after, id)
              && after[id] == Project(o, name, after[id].key, description, status, userId, now, now)
              && after[id].key !in taken
                 && ProjectKeys.Key(after[id].key) == ProjectKeys.UniqueKey(taken, name, customKey)
  {
    ProjectKeys.UniqueKeyIs(KeysOf(table, o), name, customKey);
  }

  /** Reads change no row; a page is made from exactly the rows of the organization. */
  lemma ReadEffect(pager: Pager, table: Table, o: string, p: string, q: Query, redis: Redis)
    ensures Stored(pager, table, GetProjectById(o, p, redis))
            == (table, Some(if p in table && table[p].organizationId == o then ProjectIs(p, table[p]) else NotFound))
    ensures Stored(pager, table, GetProjects(o, q, redis))
            == (table, Some(PageIs(pager(map r | r in table && table[r].organizationId == o :: table[r], q))))
  {
  }

  /** An entry that expires is gone, and another service's use of the cache sets or removes that entry alone. */
  lemma OtherUseEffect(pager: Pager, s: System, text: string, key: Key, entry: Entry)
    ensures var after := Take(pager, s, EntryExpires(text)).0;
            after.table == s.table && text !in after.cache && after.cache == s.cache - {text}
    ensures var after := Take(pager, s, OtherCacheUse(key, Some(entry))).0;
            after.table == s.table && after.cache == s.cache[key.Text() := entry]
    ensures var after := Take(pager, s, OtherCacheUse(key, None)).0;
            after.table == s.table && after.cache == s.cache - {key.Text()}
  {
  }
}
