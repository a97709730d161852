/**
 Cached project reads and writes step by step. A read fetches from the repository after a miss, and sets the cache
 later; a write changes a row first, and drops the row's entry and the organization's lists later, in either order.
 Other steps may come between them, and a drop that Redis refuses never comes. Steps are numbered by the clock.
 */
module InterleavedProjects {
  import opened Common
  import opened CacheKeys
  import opened Projects

  /** A read that has fetched but not yet set the cache. */
  datatype Fetch = Fetch(key: Key, entry: Entry, fetched: nat)

  /**
   `rowDrops` and `listDrops` hold what the calls still have to drop: the key of a project, or the lists of an
   organization. `rowWritten` and `organizationWritten` number the last step that wrote a project, or some project of an
   organization.
   */
  datatype World = World(system: System, fetches: map<nat, Fetch>, rowDrops: map<nat, Key>, listDrops: map<nat, string>,
                         rowWritten: map<string, nat>, organizationWritten: map<string, nat>, clock: nat)

  /**
   `gets` and `sets` say whether Redis answers; `Do` stands for expiries and for the use of the cache by other services.
   */
  datatype Event =
    | Begin(call: nat, key: Key, gets: bool)
    | Finish(call: nat, sets: bool)
    | Write(call: nat, step: Step)
    | DropRow(call: nat)
    | DropLists(call: nat)
    | Do(step: Step)

  predicate IsWrite(step: Step) {
    step.CreateProject? || step.UpdateProject? || step.DeleteProject?
  }

  predicate IsRead(key: Key) {
    key.Valid() && (key.ProjectKey? || key.ProjectsListKey?)
  }

  /** What the repository returns for a key, if anything. */
  function Fetched(pager: Pager, table: Table, key: Key): Option<Entry>
    requires IsRead(key)
  {
    match key
    case ProjectKey(o, p) => FetchProject(table, o, p)
    case ProjectsListKey(o, q) => Some(Listed(pager(OfOrganization(table, o), q)))
  }

  ghost predicate EventOk(w: World, e: Event) {
    match e
    case Begin(_, key, _) => IsRead(key)
    case Write(call, step) =>
      StepOk(w.system.table, step) && IsWrite(step) && call !in w.rowDrops && call !in w.listDrops
    case Do(step) => StepOk(w.system.table, step) && (step.EntryExpires? || step.OtherCacheUse?)
    case _ => true
  }

  /** Whether a write is carried out, and not refused. */
  predicate Written(pager: Pager, table: Table, step: Step) {
    var answer := Stored(pager, table, step).1;
    answer != Some(NotFound) && answer != Some(KeyAlreadyExists)
  }

  function Begun(pager: Pager, w: World, call: nat, key: Key, gets: bool): World
    requires IsRead(key)
  {
    var entry := Fetched(pager, w.system.table, key);
    if call in w.fetches || (gets && key.Text() in w.system.cache) || entry == None then w
    else w.(fetches := w.fetches[call := Fetch(key, entry.value, w.clock)])
  }

  function Finished(w: World, call: nat, sets: bool): World
    requires call in w.fetches
  {
    var f := w.fetches[call];
    w.(system := if sets then w.system.(cache := w.system.cache[f.key.Text() := f.entry]) else w.system,
       fetches := w.fetches - {call})
  }

  function WriteDone(pager: Pager, w: World, call: nat, step: Step): World
    requires IsWrite(step)
  {
    var (o, p) := (step.organizationId, step.id);
    if !Written(pager, w.system.table, step) then w
    else w.(system := w.system.(table := Stored(pager, w.system.table, step).0),
            rowDrops := if step.CreateProject? then w.rowDrops else w.rowDrops[call := ProjectKey(o, p)],
            listDrops := w.listDrops[call := o],
            rowWritten := w.rowWritten[p := w.clock],
            organizationWritten := w.organizationWritten[o := w.clock])
  }

  function RowDropped(w: World, call: nat): World
    requires call in w.rowDrops
  {
    w.(system := w.system.(cache := w.system.cache - {w.rowDrops[call].Text()}), rowDrops := w.rowDrops - {call})
  }

  function ListsDropped(w: World, call: nat): World
    requires call in w.listDrops
  {
    w.(system := w.system.(cache := WithoutMatches(w.system.cache, ProjectsListPattern(w.listDrops[call]))),
       listDrops := w.listDrops - {call})
  }

  ghost function After(pager: Pager, w: World, e: Event): World
    requires EventOk(w, e)
  {
    var next := match e {
      case Begin(call, key, gets) => Begun(pager, w, call, key, gets)
      case Finish(call, sets) => if call in w.fetches then Finished(w, call, sets) else w
      case Write(call, step) => WriteDone(pager, w, call, step)
      case DropRow(call) => if call in w.rowDrops then RowDropped(w, call) else w
      case DropLists(call) => if call in w.listDrops then ListsDropped(w, call) else w
      case Do(step) => w.(system := Take(pager, w.system, step).0)
    };
    next.(clock := w.clock + 1)
  }

  ghost predicate EventsOk(pager: Pager, table: Table, events: seq<Event>)
    decreases |events|, 1
  {
    events == [] ||
    var init := events[..|events| - 1];
    EventsOk(pager, table, init) && EventOk(History(pager, table, init), events[|events| - 1])
  }

  /** The run over given rows, from an empty cache. */
  ghost function History(pager: Pager, table: Table, events: seq<Event>): World
    requires EventsOk(pager, table, events)
    decreases |events|, 2
  {
    if events == [] then World(System(table, map[]), map[], map[], map[], map[], map[], 0)
    else After(pager, History(pager, table, events[..|events| - 1]), events[|events| - 1])
  }

  /** A write of the row, or for a list of some row of the organization, came between the fetch and now. */
  ghost predicate Straddled(w: World, f: Fetch) {
    match f.key
    case ProjectKey(_, p) => p in w.rowWritten && w.rowWritten[p] > f.fetched
    case ProjectsListKey(o, _) => o in w.organizationWritten && w.organizationWritten[o] > f.fetched
    case _ => false
  }

  /** Some call has still to drop the entry. */
  ghost predicate Awaited(w: World, key: Key) {
    if key.ProjectKey? then exists c :: c in w.rowDrops && w.rowDrops[c] == key
    else key.ProjectsListKey? && exists c :: c in w.listDrops && w.listDrops[c] == key.organizationId
  }

  /**
   A read sets an entry after a write of its row or organization that it did not see and whose drop is over, and the
   write has made a difference to what the repository returns.
   */
  ghost predicate Late(pager: Pager, w: World, e: Event) {
    e.Finish? && e.sets && e.call in w.fetches &&
    var f := w.fetches[e.call];
    Straddled(w, f) && !Awaited(w, f.key) && IsRead(f.key) && Fetched(pager, w.system.table, f.key) != Some(f.entry)
  }

  /** Every entry is what the repository would return, or is still to be dropped. */
  ghost predicate KeySettled(pager: Pager, w: World, key: Key) {
    KeyOk(pager, w.system, key) || Awaited(w, key)
  }

  ghost predicate Settled(pager: Pager, w: World) {
    forall key: Key :: KeySettled(pager, w, key)
  }

  /** What a read has fetched is what the repository returns, unless a write came between. */
  ghost predicate FetchOk(pager: Pager, w: World, f: Fetch) {
    f.fetched < w.clock && IsRead(f.key) && (EntryOk(pager, w.system.table, f.key, f.entry) || Straddled(w, f))
  }

  ghost predicate FetchesOk(pager: Pager, w: World) {
    forall c :: c in w.fetches ==> FetchOk(pager, w, w.fetches[c])
  }

  ghost predicate DropsOk(w: World) {
    && (forall c :: c in w.rowDrops ==> w.rowDrops[c].ProjectKey? && w.rowDrops[c].Valid())
    && (forall c :: c in w.listDrops ==> PlainId(w.listDrops[c]))
  }

  ghost predicate Inv(pager: Pager, w: World) {
    FetchesOk(pager, w) && DropsOk(w)
  }

  /** Whether a write concerns an entry. */
  predicate Concerns(step: Step, key: Key)
    requires IsWrite(step)
  {
    if key.ProjectKey? then key.organizationId == step.organizationId && key.projectId == step.id
    else key.ProjectsListKey? && key.organizationId == step.organizationId
  }

  lemma OthersStayOk(pager: Pager, table: Table, step: Step, key: Key, entry: Entry)
    requires IsWrite(step) && StepOk(table, step) && EntryOk(pager, table, key, entry) && !Concerns(step, key)
    ensures EntryOk(pager, Stored(pager, table, step).0, key, entry)
  {
    StoredChangesOneRow(pager, table, step);
    if Written(pager, table, step) {
      EntryStaysOk(pager, table, Stored(pager, table, step).0, step.id, step.organizationId, key, entry);
    }
  }

  lemma FetchStaysOk(pager: Pager, w: World, w': World, f: Fetch)
    requires FetchOk(pager, w, f) && w'.system.table == w.system.table && w.clock <= w'.clock
    requires w'.rowWritten == w.rowWritten && w'.organizationWritten == w.organizationWritten
    ensures FetchOk(pager, w', f)
  {
  }

  lemma WriteKeepsFetchOk(pager: Pager, w: World, call: nat, step: Step, f: Fetch)
    requires IsWrite(step) && StepOk(w.system.table, step) && FetchOk(pager, w, f)
    ensures FetchOk(pager, WriteDone(pager, w, call, step), f)
  {
    if Written(pager, w.system.table, step) && !Concerns(step, f.key) && !Straddled(w, f) {
      OthersStayOk(pager, w.system.table, step, f.key, f.entry);
    }
  }

  lemma BeginKeepsFetchesOk(pager: Pager, w: World, call: nat, key: Key, gets: bool)
    requires IsRead(key) && FetchesOk(pager, w)
    ensures FetchesOk(pager, Begun(pager, w, call, key, gets).(clock := w.clock + 1))
  {
    var w' := Begun(pager, w, call, key, gets).(clock := w.clock + 1);
    forall c | c in w'.fetches ensures FetchOk(pager, w', w'.fetches[c]) {
      if w'.fetches != w.fetches && c == call {
        assert w'.fetches[c] == Fetch(key, Fetched(pager, w.system.table, key).value, w.clock);
      } else {
        FetchStaysOk(pager, w, w', w.fetches[c]);
      }
    }
  }

  lemma WriteKeepsFetchesOk(pager: Pager, w: World, call: nat, step: Step)
    requires IsWrite(step) && StepOk(w.system.table, step) && FetchesOk(pager, w)
    ensures FetchesOk(pager, WriteDone(pager, w, call, step).(clock := w.clock + 1))
  {
    var done := WriteDone(pager, w, call, step);
    var w' := done.(clock := w.clock + 1);
    forall c | c in w'.fetches ensures FetchOk(pager, w', w'.fetches[c]) {
      WriteKeepsFetchOk(pager, w, call, step, w.fetches[c]);
      FetchStaysOk(pager, done, w', w.fetches[c]);
    }
  }

  lemma OtherKeepsFetchesOk(pager: Pager, w: World, w': World)
    requires FetchesOk(pager, w) && w'.system.table == w.system.table && w.clock <= w'.clock
    requires w'.rowWritten == w.rowWritten && w'.organizationWritten == w.organizationWritten
    requires forall c :: c in w'.fetches ==> c in w.fetches && w'.fetches[c] == w.fetches[c]
    ensures FetchesOk(pager, w')
  {
    forall c | c in w'.fetches ensures FetchOk(pager, w', w'.fetches[c]) {
      FetchStaysOk(pager, w, w', w.fetches[c]);
    }
  }

  lemma EventKeepsDropsOk(pager: Pager, w: World, e: Event)
    requires EventOk(w, e) && DropsOk(w)
    ensures DropsOk(After(pager, w, e))
  {
  }

  lemma QuietKeepsFetches(pager: Pager, w: World, e: Event)
    requires EventOk(w, e) && !e.Begin? && !e.Write?
    ensures var w' := After(pager, w, e);
            && w'.system.table == w.system.table && w.clock <= w'.clock
            && w'.rowWritten == w.rowWritten && w'.organizationWritten == w.organizationWritten
            && forall c :: c in w'.fetches ==> c in w.fetches && w'.fetches[c] == w.fetches[c]
  {
  }

  lemma EventKeepsInv(pager: Pager, w: World, e: Event)
    requires EventOk(w, e) && Inv(pager, w)
    ensures Inv(pager, After(pager, w, e))
  {
    EventKeepsDropsOk(pager, w, e);
    match e
    case Begin(call, key, gets) => BeginKeepsFetchesOk(pager, w, call, key, gets);
    case Write(call, step) => WriteKeepsFetchesOk(pager, w, call, step);
    case _ =>
      QuietKeepsFetches(pager, w, e);
      OtherKeepsFetchesOk(pager, w, After(pager, w, e));
  }

  lemma WriteKeepsSettled(pager: Pager, w: World, call: nat, step: Step)
    requires EventOk(w, Write(call, step)) && Settled(pager, w) && Written(pager, w.system.table, step)
    ensures Settled(pager, WriteDone(pager, w, call, step))
  {
    var w' := WriteDone(pager, w, call, step);
    forall key: Key ensures KeySettled(pager, w', key) {
      assert KeySettled(pager, w, key);
      if Awaited(w, key) {
        if key.ProjectKey? {
          var c :| c in w.rowDrops && w.rowDrops[c] == key;
          assert c in w'.rowDrops && w'.rowDrops[c] == key;
        } else {
          var c :| c in w.listDrops && w.listDrops[c] == key.organizationId;
          assert c in w'.listDrops && w'.listDrops[c] == key.organizationId;
        }
      } else if Concerns(step, key) {
        assert key.ProjectKey? && !step.CreateProject? ==> call in w'.rowDrops && w'.rowDrops[call] == key;
        assert call in w'.listDrops && w'.listDrops[call] == key.organizationId;
      } else if key.Valid() && key.Text() in w.system.cache {
        OthersStayOk(pager, w.system.table, step, key, w.system.cache[key.Text()]);
      }
    }
  }

  lemma RowDropKeepsSettled(pager: Pager, w: World, call: nat)
    requires Inv(pager, w) && Settled(pager, w) && call in w.rowDrops
    ensures Settled(pager, RowDropped(w, call))
  {
    var w' := RowDropped(w, call);
    forall key: Key ensures KeySettled(pager, w', key) {
      assert KeySettled(pager, w, key);
      if Awaited(w, key) && key.ProjectKey? && key != w.rowDrops[call] {
        var c :| c in w.rowDrops && w.rowDrops[c] == key;
        assert c in w'.rowDrops && w'.rowDrops[c] == key;
      }
    }
  }

  lemma ListsDropKeepsSettled(pager: Pager, w: World, call: nat)
    requires Inv(pager, w) && Settled(pager, w) && call in w.listDrops
    ensures Settled(pager, ListsDropped(w, call))
  {
    var w', o := ListsDropped(w, call), w.listDrops[call];
    forall key: Key ensures KeySettled(pager, w', key) {
      assert KeySettled(pager, w, key);
      if key.Valid() {
        PatternMatchesIff(o, key);
      }
      if Awaited(w, key) && key.ProjectsListKey? && key.organizationId != o {
        var c :| c in w.listDrops && w.listDrops[c] == key.organizationId;
        assert c in w'.listDrops && w'.listDrops[c] == key.organizationId;
      }
    }
  }

  lemma CacheUseKeepsSettled(pager: Pager, w: World, step: Step)
    requires EventOk(w, Do(step)) && Settled(pager, w)
    ensures Settled(pager, After(pager, w, Do(step)))
  {
    var w' := After(pager, w, Do(step));
    forall key: Key ensures KeySettled(pager, w', key) {
      assert KeySettled(pager, w, key);
      if step.OtherCacheUse? && key.Valid() && key.Text() == step.key.Text() {
        KeysAreInjective(key, step.key);
      }
    }
  }

  lemma EntryOkIff(pager: Pager, table: Table, key: Key, entry: Entry)
    requires IsRead(key)
    ensures EntryOk(pager, table, key, entry) <==> Fetched(pager, table, key) == Some(entry)
  {
  }

  lemma FinishKeepsSettledIff(pager: Pager, w: World, call: nat, sets: bool)
    requires Inv(pager, w) && Settled(pager, w) && call in w.fetches
    ensures Settled(pager, Finished(w, call, sets)) <==> !Late(pager, w, Finish(call, sets))
  {
    var w', f := Finished(w, call, sets), w.fetches[call];
    assert FetchOk(pager, w, f);
    EntryOkIff(pager, w.system.table, f.key, f.entry);
    if Late(pager, w, Finish(call, sets)) {
      assert !KeySettled(pager, w', f.key);
    } else {
      forall key: Key ensures KeySettled(pager, w', key) {
        assert KeySettled(pager, w, key);
        if key.Valid() && key.Text() == f.key.Text() {
          KeysAreInjective(key, f.key);
        }
      }
    }
  }

  /** An event keeps the cache settled exactly when it sets no late entry. */
  lemma EventKeepsSettledIff(pager: Pager, w: World, e: Event)
    requires EventOk(w, e) && Inv(pager, w) && Settled(pager, w)
    ensures Settled(pager, After(pager, w, e)) <==> !Late(pager, w, e)
  {
    var w' := After(pager, w, e);
    var next := w'.(clock := w.clock);
    assert forall key: Key :: KeySettled(pager, w', key) <==> KeySettled(pager, next, key);
    match e
    case Begin(_, _, _) => assert forall key: Key :: KeySettled(pager, w, key) <==> KeySettled(pager, next, key);
    case Finish(call, sets) => if call in w.fetches { FinishKeepsSettledIff(pager, w, call, sets); }
    case Write(call, step) => if Written(pager, w.system.table, step) { WriteKeepsSettled(pager, w, call, step); }
    case DropRow(call) => if call in w.rowDrops { RowDropKeepsSettled(pager, w, call); }
    case DropLists(call) => if call in w.listDrops { ListsDropKeepsSettled(pager, w, call); }
    case Do(step) => CacheUseKeepsSettled(pager, w, step);
  }

  ghost predicate AlwaysSettled(pager: Pager, table: Table, events: seq<Event>)
    requires EventsOk(pager, table, events)
  {
    Settled(pager, History(pager, table, events))
    && (events != [] ==> AlwaysSettled(pager, table, events[..|events| - 1]))
  }

  ghost predicate NeverLate(pager: Pager, table: Table, events: seq<Event>)
    requires EventsOk(pager, table, events)
  {
    events == [] ||
    var init := events[..|events| - 1];
    NeverLate(pager, table, init) && !Late(pager, History(pager, table, init), events[|events| - 1])
  }

  /**
   In every interleaving of reads, writes, drops, expiries and other uses of the cache, every cached project and page is
   at all times what the repository would return or awaits its drop, if and only if no read sets an entry that a write,
   made since the read fetched and dropped already, has changed.
   */
  lemma {:induction false} AlwaysSettledIff(pager: Pager, table: Table, events: seq<Event>)
    requires EventsOk(pager, table, events)
    ensures AlwaysSettled(pager, table, events) <==> NeverLate(pager, table, events)
    ensures Inv(pager, History(pager, table, events))
  {
    if events == [] {
      var w := History(pager, table, events);
      EmptyCacheIsCoherent(pager, table);
      forall key: Key ensures KeySettled(pager, w, key) {
        assert KeyOk(pager, w.system, key);
      }
    } else {
      var init, e := events[..|events| - 1], events[|events| - 1];
      AlwaysSettledIff(pager, table, init);
      EventKeepsInv(pager, History(pager, table, init), e);
      if AlwaysSettled(pager, table, init) {
        EventKeepsSettledIff(pager, History(pager, table, init), e);
      }
    }
  }

  /** Once every drop has come, a settled cache is coherent. */
  lemma NothingAwaitedIsCoherent(pager: Pager, w: World)
    requires Settled(pager, w) && w.rowDrops == map[] && w.listDrops == map[]
    ensures Coherent(pager, w.system)
  {
    forall key: Key ensures KeyOk(pager, w.system, key) {
      assert KeySettled(pager, w, key);
    }
  }

  lemma OneMore(pager: Pager, table: Table, init: seq<Event>, e: Event)
    requires EventsOk(pager, table, init) && EventOk(History(pager, table, init), e)
    ensures EventsOk(pager, table, init + [e])
    ensures History(pager, table, init + [e]) == After(pager, History(pager, table, init), e)
  {
    assert (init + [e])[..|init + [e]| - 1] == init;
  }

  function ReadAcross(key: Key, step: Step): seq<Event> {
    [Begin(0, key, true)] + [Write(1, step)] + [DropRow(1)] + [DropLists(1)] + [Finish(0, true)]
  }

  lemma BeforeLateSet(pager: Pager, table: Table, o: string, p: string, c: Changes, now: nat)
    requires PlainId(o) && Has(table, o, p) && !KeyConflict(table, o, p, c)
    ensures var step := UpdateProject(o, p, c, now);
            var init := [Begin(0, ProjectKey(o, p), true)] + [Write(1, step)] + [DropRow(1)] + [DropLists(1)];
            EventsOk(pager, table, init)
            && var w := History(pager, table, init);
               && w.fetches == map[0 := Fetch(ProjectKey(o, p), One(p, table[p]), 0)]
               && w.rowDrops == map[] && w.listDrops == map[]
               && w.system == System(table[p := Changed(table[p], c, now)], map[])
  {
    var key, step := ProjectKey(o, p), UpdateProject(o, p, c, now);
    var e1, e2, e3 := [Begin(0, key, true)], [Write(1, step)], [DropRow(1)];
    OneMore(pager, table, [], Begin(0, key, true));
    assert [] + e1 == e1;
    OneMore(pager, table, e1, Write(1, step));
    OneMore(pager, table, e1 + e2, DropRow(1));
    OneMore(pager, table, e1 + e2 + e3, DropLists(1));
  }

  lemma LoneEntrySettledIff(pager: Pager, w: World, key: Key, entry: Entry)
    requires IsRead(key) && w.rowDrops == map[] && w.listDrops == map[] && w.system.cache == map[key.Text() := entry]
    ensures Settled(pager, w) <==> EntryOk(pager, w.system.table, key, entry)
  {
    assert KeySettled(pager, w, key) <==> EntryOk(pager, w.system.table, key, entry);
    if KeySettled(pager, w, key) {
      forall k: Key ensures KeySettled(pager, w, k) {
        if k.Valid() && k.Text() == key.Text() {
          KeysAreInjective(k, key);
        }
      }
    }
  }

  /**
   Any read of a project that fetches before an update and sets after the drops leaves an entry that nothing will drop,
   and that differs from the row unless the update left the row as it was.
   */
  lemma ReadAcrossUpdateIff(pager: Pager, table: Table, o: string, p: string, c: Changes, now: nat)
    requires PlainId(o) && Has(table, o, p) && !KeyConflict(table, o, p, c)
    ensures var events := ReadAcross(ProjectKey(o, p), UpdateProject(o, p, c, now));
            EventsOk(pager, table, events)
            && var w := History(pager, table, events);
               && w.rowDrops == map[] && w.listDrops == map[]
               && (Settled(pager, w) <==> Changed(table[p], c, now) == table[p])
  {
    var key, step := ProjectKey(o, p), UpdateProject(o, p, c, now);
    BeforeLateSet(pager, table, o, p, c, now);
    var init := [Begin(0, key, true)] + [Write(1, step)] + [DropRow(1)] + [DropLists(1)];
    OneMore(pager, table, init, Finish(0, true));
    LoneEntrySettledIff(pager, History(pager, table, init + [Finish(0, true)]), key, One(p, table[p]));
  }

  // ---- Calls in one go ----------------------------------------------------------------------------------------------

  lemma ReadAtOnce(pager: Pager, w: World, w': World, call: nat, key: Key, redis: Redis)
    requires IsRead(key) && call !in w.fetches
    requires w' == Begun(pager, w, call, key, redis.gets).(clock := w.clock + 1)
    ensures var done := if call in w'.fetches then Finished(w', call, redis.sets) else w';
            && done.system == w.system.(cache :=
                 GotOrSet(w.system.cache, key.Text(), Fetched(pager, w.system.table, key), redis).0)
            && done.fetches == w.fetches
  {
  }

  /** The step that reads what the key holds. */
  function ReadStep(key: Key, redis: Redis): Step
    requires IsRead(key)
  {
    if key.ProjectKey? then GetProjectById(key.organizationId, key.projectId, redis)
    else GetProjects(key.organizationId, key.query, redis)
  }

  lemma ReadStepIs(pager: Pager, s: System, key: Key, redis: Redis)
    requires IsRead(key)
    ensures Take(pager, s, ReadStep(key, redis)).0
            == s.(cache := GotOrSet(s.cache, key.Text(), Fetched(pager, s.table, key), redis).0)
  {
  }

  /** A fetch that is set at once is the read of one step. */
  lemma WholeRead(pager: Pager, w: World, call: nat, key: Key, redis: Redis)
    requires IsRead(key) && call !in w.fetches
    ensures var w' := After(pager, After(pager, w, Begin(call, key, redis.gets)), Finish(call, redis.sets));
            w'.system == Take(pager, w.system, ReadStep(key, redis)).0 && w'.fetches == w.fetches
  {
    ReadAtOnce(pager, w, After(pager, w, Begin(call, key, redis.gets)), call, key, redis);
    ReadStepIs(pager, w.system, key, redis);
  }

  lemma DropsAtOnce(w: World, call: nat, key: Option<Key>, o: string)
    requires call !in w.rowDrops && call !in w.listDrops
    ensures var written := w.(rowDrops := if key.Some? then w.rowDrops[call := key.value] else w.rowDrops,
                              listDrops := w.listDrops[call := o]);
            var w' := ListsDropped(if key.Some? then RowDropped(written, call) else written, call);
            && w'.rowDrops == w.rowDrops && w'.listDrops == w.listDrops && w'.system.table == w.system.table
            && w'.system.cache
               == WithoutMatches(if key.Some? then w.system.cache - {key.value.Text()} else w.system.cache,
                                                 ProjectsListPattern(o))
  {
  }

  /** A write whose drops follow at once is the write of one step. */
  lemma WholeWrite(pager: Pager, w: World, call: nat, step: Step)
    requires EventOk(w, Write(call, step)) && Written(pager, w.system.table, step)
    ensures var written := WriteDone(pager, w, call, step);
            var dropped := if step.CreateProject? then written else RowDropped(written, call);
            var w' := ListsDropped(dropped, call);
            && w'.system == Take(pager, w.system, step).0
            && w'.rowDrops == w.rowDrops && w'.listDrops == w.listDrops
  {
    var table := w.(system := w.system.(table := Stored(pager, w.system.table, step).0));
    var key := if step.CreateProject? then None else Some(ProjectKey(step.organizationId, step.id));
    DropsAtOnce(table, call, key, step.organizationId);
  }

  lemma RefusedWrite(pager: Pager, w: World, call: nat, step: Step)
    requires EventOk(w, Write(call, step)) && !Written(pager, w.system.table, step)
    ensures WriteDone(pager, w, call, step) == w && Take(pager, w.system, step).0 == w.system
  {
    StoredChangesOneRow(pager, w.system.table, step);
  }

  lemma WholeOtherUse(pager: Pager, w: World, step: Step)
    requires EventOk(w, Do(step))
    ensures After(pager, w, Do(step)).system == Take(pager, w.system, step).0
    ensures After(pager, w, Do(step)).fetches == w.fetches
  {
  }
}
