/** The cache service and the project service as classes over their state. */
module ProjectServices {
  import opened Common
  import opened CacheKeys
  import ProjectKeys
  import opened Projects

  /** Reads and sets whose failures are swallowed, and deletions that work. */
  class CacheService {
    var entries: Cache

    constructor ()
      ensures entries == map[]
    {
      entries := map[];
    }

    method Get(text: string, works: bool) returns (entry: Option<Entry>)
      ensures entry == if works && text in entries then Some(entries[text]) else None
    {
      entry := if works && text in entries then Some(entries[text]) else None;
    }

    method Set(text: string, entry: Entry, works: bool)
      modifies this
      ensures entries == if works then old(entries)[text := entry] else old(entries)
    {
      if works {
        entries := entries[text := entry];
      }
    }

    method Del(texts: seq<string>)
      modifies this
      ensures entries == old(entries) - (set t | t in texts)
    {
      entries := entries - (set t | t in texts);
    }

    /** What SCAN guarantees of its batches: only matches, and every match that was there throughout. */
    ghost predicate ScanComplete(pattern: string, batches: seq<seq<string>>)
      reads this
    {
      && batches != []
      && (forall i, j :: 0 <= i < |batches| && 0 <= j < |batches[i]| ==> Matches(pattern, batches[i][j]))
      && forall t :: t in entries && Matches(pattern, t) ==> Scanned(t, batches)
    }

    /** The loop over the cursor, one batch a round, until the cursor is back at 0. */
    method DelByPattern(pattern: string, batches: seq<seq<string>>)
      requires ScanComplete(pattern, batches)
      modifies this
      ensures entries == WithoutMatches(old(entries), pattern)
    {
      var cursor := 0;
      ghost var before := entries;
      while cursor < |batches|
        invariant 0 <= cursor <= |batches|
        invariant entries.Keys <= before.Keys && forall t :: t in entries ==> entries[t] == before[t]
        invariant forall t :: t in before && !Matches(pattern, t) ==> t in entries
        invariant forall t :: t in entries ==> !Scanned(t, batches[..cursor])
      {
        var keys := batches[cursor];
        ghost var current := entries;
        if |keys| > 0 {
          Del(keys);
        }
        forall t | t in entries ensures !Scanned(t, batches[..cursor + 1]) {
          ScannedSnoc(t, batches[..cursor], keys);
          assert batches[..cursor + 1] == batches[..cursor] + [keys];
          assert t in current;
        }
        cursor := cursor + 1;
      }
      assert batches[..cursor] == batches;
    }

    method GetOrSet(text: string, fetched: Option<Entry>, redis: Redis) returns (entry: Option<Entry>)
      modifies this
      ensures (entries, entry) == GotOrSet(old(entries), text, fetched, redis)
    {
      entry := Get(text, redis.gets);
      if entry.Some? {
        return entry;
      }
      if fetched.Some? {
        Set(text, fetched.value, redis.sets);
      }
      return fetched;
    }
  }

  ghost predicate Scanned(t: string, batches: seq<seq<string>>) {
    exists i :: 0 <= i < |batches| && t in batches[i]
  }

  lemma ScannedSnoc(t: string, batches: seq<seq<string>>, last: seq<string>)
    ensures Scanned(t, batches + [last]) <==> Scanned(t, batches) || t in last
  {
    var all := batches + [last];
    if Scanned(t, all) {
      var i :| 0 <= i < |all| && t in all[i];
      assert i < |batches| ==> all[i] == batches[i];
    }
    if Scanned(t, batches) {
      var i :| 0 <= i < |batches| && t in batches[i];
      assert all[i] == batches[i];
    }
    assert all[|batches|] == last;
  }

  class ProjectService {
    var table: Table
    const cache: CacheService
    const pager: Pager

    constructor (cache: CacheService, pager: Pager)
      ensures this.cache == cache && this.pager == pager && table == map[]
    {
      this.cache, this.pager, table := cache, pager, map[];
    }

    ghost function State(): System
      reads this, cache
    {
      System(table, cache.entries)
    }

    ghost function Next(step: Step): System
      reads this, cache
    {
      Take(pager, State(), step).0
    }

    ghost function AnswerTo(step: Step): Option<Answer>
      reads this, cache
    {
      Take(pager, State(), step).1
    }

    method GetProjectById(organizationId: string, id: string, redis: Redis) returns (answer: Option<Answer>)
      modifies cache
      ensures var step := Step.GetProjectById(organizationId, id, redis);
              State() == old(Next(step)) && answer == old(AnswerTo(step))
    {
      var fetched := if Has(table, organizationId, id) then Some(One(id, table[id])) else None;
      var entry := cache.GetOrSet(ProjectKey(organizationId, id).Text(), fetched, redis);
      return AnswerOf(entry);
    }

    method GetProjects(organizationId: string, query: Query, redis: Redis) returns (answer: Option<Answer>)
      modifies cache
      ensures var step := Step.GetProjects(organizationId, query, redis);
              State() == old(Next(step)) && answer == old(AnswerTo(step))
    {
      var page := pager(OfOrganization(table, organizationId), query);
      var entry := cache.GetOrSet(ProjectsListKey(organizationId, query).Text(), Some(Listed(page)), redis);
      return AnswerOf(entry);
    }

    method CreateProject(organizationId: string, id: string, name: string, customKey: Option<string>,
                         description: Option<string>, status: Status, userId: string, now: nat,
                         batches: seq<seq<string>>)
      returns (answer: Option<Answer>)
      requires cache.ScanComplete(ProjectsListPattern(organizationId), batches)
      modifies this, cache
      ensures var step := Step.CreateProject(organizationId, id, name, customKey, description, status, userId, now);
              State() == old(Next(step)) && answer == old(AnswerTo(step))
    {
      var generated, _ := ProjectKeys.GenerateUniqueKey(KeysOf(table, organizationId), name, customKey);
      if generated.KeyAlreadyExists? {
        return Some(KeyAlreadyExists);
      }
      var project := Project(organizationId, name, generated.key, description, status, userId, now, now);
      TakeCreated(pager, State(),
                  Step.CreateProject(organizationId, id, name, customKey, description, status, userId, now), project);
      table := table[id := project];
      cache.DelByPattern(ProjectsListPattern(organizationId), batches);
      return Some(ProjectIs(id, project));
    }

    method UpdateProject(organizationId: string, id: string, changes: Changes, now: nat, batches: seq<seq<string>>)
      returns (answer: Option<Answer>)
      requires cache.ScanComplete(ProjectsListPattern(organizationId), batches)
      modifies this, cache
      ensures var step := Step.UpdateProject(organizationId, id, changes, now);
              State() == old(Next(step)) && answer == old(AnswerTo(step))
    {
      if !Has(table, organizationId, id) {
        return Some(NotFound);
      }
      if KeyConflict(table, organizationId, id, changes) {
        return Some(KeyAlreadyExists);
      }
      var project := Changed(table[id], changes, now);
      table := table[id := project];
      Invalidate(organizationId, id, batches);
      return Some(ProjectIs(id, project));
    }

    method DeleteProject(organizationId: string, id: string, batches: seq<seq<string>>) returns (answer: Option<Answer>)
      requires cache.ScanComplete(ProjectsListPattern(organizationId), batches)
      modifies this, cache
      ensures var step := Step.DeleteProject(organizationId, id);
              State() == old(Next(step)) && answer == old(AnswerTo(step))
    {
      if !Has(table, organizationId, id) {
        return Some(NotFound);
      }
      table := table - {id};
      Invalidate(organizationId, id, batches);
      return Some(Deleted);
    }

    /** The project's entry and the organization's lists are removed. */
    method Invalidate(organizationId: string, id: string, batches: seq<seq<string>>)
      requires cache.ScanComplete(ProjectsListPattern(organizationId), batches)
      modifies cache
      ensures cache.entries == WithoutMatches(old(cache.entries) - {ProjectKey(organizationId, id).Text()},
                                              ProjectsListPattern(organizationId))
    {
      var text := ProjectKey(organizationId, id).Text();
      assert (set t | t in [text]) == {text};
      cache.Del([text]);
      cache.DelByPattern(ProjectsListPattern(organizationId), batches);
    }
  }
}
