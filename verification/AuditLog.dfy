/**
 The hash-chained audit log. Rows are kept in createdAt order, which is the order both queries sort by.
 SHA-256 is a parameter; results that need it to be collision-free ask for that only on the payloads that occur.
 */
module AuditLog {
  import opened Common

  datatype EntityType = ORGANIZATION | PROJECT | TASK | COMMENT | USER | MEETING
  datatype ActivityAction =
    | CREATED | UPDATED | DELETED | TASK_STATUS_CHANGED | TASK_ASSIGNED
    | MEMBER_ADDED | MEMBER_REMOVED | MEET_LINK_CREATED

  datatype Params = Params(organizationId: string, userId: string, entityType: EntityType, entityId: string,
                           action: ActivityAction)
  /** The `_security` entry of a row's metadata; either field may be missing in a row written by other means. */
  datatype Security = Security(hash: Option<string>, prevHash: Option<string>)
  datatype Row = Row(id: string, params: Params, metadata: string, security: Option<Security>, createdAt: int)
  /** The part of a chained row that the verification walk looks at. */
  datatype Link = Link(prevHash: Option<string>, params: Params, hash: string)
  datatype Verdict = Verdict(valid: bool, verifiedCount: nat, tamperedLogId: Option<string>)

  /** The previous hash of a first row. */
  const GENESIS: string := Zeroes(64)
  const VERIFICATION_LIMIT: nat := 500

  function EntityName(e: EntityType): string {
    match e
    case ORGANIZATION => "ORGANIZATION"
    case PROJECT => "PROJECT"
    case TASK => "TASK"
    case COMMENT => "COMMENT"
    case USER => "USER"
    case MEETING => "MEETING"
  }

  function ActionName(a: ActivityAction): string {
    match a
    case CREATED => "CREATED"
    case UPDATED => "UPDATED"
    case DELETED => "DELETED"
    case TASK_STATUS_CHANGED => "TASK_STATUS_CHANGED"
    case TASK_ASSIGNED => "TASK_ASSIGNED"
    case MEMBER_ADDED => "MEMBER_ADDED"
    case MEMBER_REMOVED => "MEMBER_REMOVED"
    case MEET_LINK_CREATED => "MEET_LINK_CREATED"
  }

  /** The string that is hashed: six fields joined by colons. */
  function Payload(prevHash: string, p: Params): string {
    prevHash + [':'] + (p.organizationId + [':'] + (p.userId + [':'] + (EntityName(p.entityType) + [':'] +
      (p.entityId + [':'] + ActionName(p.action)))))
  }

  /** What the service hashes and how, as one function of the previous hash and the hashed fields. */
  type Digest = (string, Params) -> string

  function PayloadDigest(sha: string -> string): Digest {
    (prevHash: string, p: Params) => sha(Payload(prevHash, p))
  }

  /** Organization and user ids are UUIDs, so they hold no colon; the entity id may be any string. */
  ghost predicate PlainIds(p: Params) {
    ':' !in p.organizationId && ':' !in p.userId
  }

  ghost predicate HexDigests(sha: string -> string) {
    forall x :: sha(x) != "" && ':' !in sha(x)
  }

  lemma EntityPartInjective(e: EntityType, i: string, a: ActivityAction, e': EntityType, i': string, a': ActivityAction)
    requires EntityName(e) + [':'] + (i + [':'] + ActionName(a))
             == EntityName(e') + [':'] + (i' + [':'] + ActionName(a'))
    ensures e == e' && i == i' && a == a'
  {
    SplitAtFirst(EntityName(e), i + [':'] + ActionName(a), EntityName(e'), i' + [':'] + ActionName(a'), ':');
    SplitAtLast(i, ActionName(a), i', ActionName(a'), ':');
    EntityNameInjective(e, e');
    ActionNameInjective(a, a');
  }

  /** The colon-joined payload determines all six fields although the entity id may itself hold colons. */
  lemma PayloadInjective(h: string, p: Params, h': string, p': Params)
    requires ':' !in h && ':' !in h' && PlainIds(p) && PlainIds(p')
    requires Payload(h, p) == Payload(h', p')
    ensures h == h' && p == p'
  {
    var e := EntityName(p.entityType) + [':'] + (p.entityId + [':'] + ActionName(p.action));
    var e' := EntityName(p'.entityType) + [':'] + (p'.entityId + [':'] + ActionName(p'.action));
    var u, u' := p.userId + [':'] + e, p'.userId + [':'] + e';
    SplitAtFirst(h, p.organizationId + [':'] + u, h', p'.organizationId + [':'] + u', ':');
    SplitAtFirst(p.organizationId, u, p'.organizationId, u', ':');
    SplitAtFirst(p.userId, e, p'.userId, e', ':');
    EntityPartInjective(p.entityType, p.entityId, p.action, p'.entityType, p'.entityId, p'.action);
  }

  lemma EntityNameInjective(e: EntityType, e': EntityType)
    requires EntityName(e) == EntityName(e')
    ensures e == e'
  {
    assert |EntityName(e)| == |EntityName(e')| && EntityName(e)[0] == EntityName(e')[0];
  }

  lemma ActionNameInjective(a: ActivityAction, a': ActivityAction)
    requires ActionName(a) == ActionName(a')
    ensures a == a'
  {
    assert |ActionName(a)| == |ActionName(a')| && ActionName(a)[0] == ActionName(a')[0];
  }

  // ---- Chains --------------------------------------------------------------------------------

  /** A row's stored hash; the empty string when the row is not chained. */
  function StoredHash(row: Row): string {
    if row.security.Some? && row.security.value.hash.Some? then row.security.value.hash.value else ""
  }

  function LinkOf(row: Row): Link
    requires StoredHash(row) != ""
  {
    Link(row.security.value.prevHash, row.params, StoredHash(row))
  }

  /** The chained rows of a log, oldest first, as the walk sees them: rows without a hash are passed over. */
  ghost function Links(rows: seq<Row>): seq<Link> {
    if rows == [] then []
    else
      var row := rows[|rows| - 1];
      Links(rows[..|rows| - 1]) + if StoredHash(row) == "" then [] else [LinkOf(row)]
  }

  ghost function HeadHash(links: seq<Link>): string {
    if links == [] then GENESIS else links[|links| - 1].hash
  }

  ghost function NamedHash(link: Link): string {
    if link.prevHash.Some? then link.prevHash.value else ""
  }

  ghost predicate IsLink(digest: Digest, link: Link, prevHash: string) {
    link.prevHash == Some(prevHash) && link.hash == digest(prevHash, link.params)
  }

  /** Every link names its predecessor's hash and stores the digest of that hash and its own fields. */
  ghost predicate HashChain(digest: Digest, links: seq<Link>) {
    links == [] ||
    var init := links[..|links| - 1];
    HashChain(digest, init) && IsLink(digest, links[|links| - 1], HeadHash(init))
  }

  lemma HashChainSnoc(digest: Digest, links: seq<Link>, l: Link)
    ensures HashChain(digest, links + [l]) <==> HashChain(digest, links) && IsLink(digest, l, HeadHash(links))
  {
    assert (links + [l])[..|links|] == links;
  }

  lemma {:induction false} PrefixOfChain(digest: Digest, links: seq<Link>, k: nat)
    requires HashChain(digest, links) && k <= |links|
    ensures HashChain(digest, links[..k])
  {
    if k == |links| {
      assert links[..k] == links;
    } else {
      PrefixOfChain(digest, links[..|links| - 1], k);
      assert links[..|links| - 1][..k] == links[..k];
    }
  }

  lemma {:induction false} LinksPrefix(rows: seq<Row>, n: nat)
    requires n <= |rows|
    ensures |Links(rows[..n])| <= |Links(rows)|
    ensures Links(rows[..n]) == Links(rows)[..|Links(rows[..n])|]
    decreases |rows|
  {
    if n == |rows| {
      assert rows[..n] == rows;
    } else {
      var init := rows[..|rows| - 1];
      LinksPrefix(init, n);
      assert init[..n] == rows[..n];
    }
  }

  lemma LinksSnoc(rows: seq<Row>, n: nat)
    requires n < |rows|
    ensures Links(rows[..n + 1]) == if StoredHash(rows[n]) == "" then Links(rows[..n])
            else Links(rows[..n]) + [LinkOf(rows[n])]
  {
    assert rows[..n + 1][..n] == rows[..n];
  }

  lemma ChainPrefix(digest: Digest, rows: seq<Row>, n: nat)
    requires n <= |rows| && HashChain(digest, Links(rows))
    ensures HashChain(digest, Links(rows[..n]))
  {
    LinksPrefix(rows, n);
    PrefixOfChain(digest, Links(rows), |Links(rows[..n])|);
  }

  // ---- What the head hash pins -----------------------------------------------------------------

  /** The payload strings of two chains: different ones have different digests, and no digest is all zeros. */
  ghost predicate CollisionFree(sha: string -> string, a: seq<Link>, b: seq<Link>) {
    && (forall x, y :: x in a && y in b && sha(LinkPayload(x)) == sha(LinkPayload(y)) ==>
        LinkPayload(x) == LinkPayload(y))
    && (forall x :: x in a + b ==> sha(LinkPayload(x)) != GENESIS)
  }

  ghost function LinkPayload(link: Link): string {
    Payload(NamedHash(link), link.params)
  }

  ghost predicate PlainLinks(links: seq<Link>) {
    forall x :: x in links ==> PlainIds(x.params)
  }

  /** On the links of two chains a digest determines what was hashed, and is never the all-zero start. */
  ghost predicate DigestsPin(digest: Digest, a: seq<Link>, b: seq<Link>) {
    && (forall x, y :: x in a && y in b && digest(NamedHash(x), x.params) == digest(NamedHash(y), y.params) ==>
          NamedHash(x) == NamedHash(y) && x.params == y.params)
    && (forall x :: x in a + b ==> digest(NamedHash(x), x.params) != GENESIS)
  }

  lemma {:induction false} NamedHashesAreColonFree(sha: string -> string, links: seq<Link>, x: Link)
    requires HexDigests(sha) && HashChain(PayloadDigest(sha), links) && x in links
    ensures ':' !in NamedHash(x)
  {
    var init := links[..|links| - 1];
    if x in init {
      NamedHashesAreColonFree(sha, init, x);
    } else {
      assert x == links[|links| - 1];
      assert NamedHash(x) == HeadHash(init);
      if init != [] {
        var y, h := init[|init| - 1], HeadHash(init[..|init| - 1]);
        assert IsLink(PayloadDigest(sha), y, h);
        assert PayloadDigest(sha)(h, y.params) == sha(Payload(h, y.params));
      }
    }
  }

  /** Colon-joining loses nothing: if SHA-256 does not collide on the payloads, the digests pin the fields. */
  lemma CollisionFreeDigestsPin(sha: string -> string, a: seq<Link>, b: seq<Link>)
    requires HexDigests(sha) && CollisionFree(sha, a, b) && PlainLinks(a) && PlainLinks(b)
    requires HashChain(PayloadDigest(sha), a) && HashChain(PayloadDigest(sha), b)
    ensures DigestsPin(PayloadDigest(sha), a, b)
  {
    forall x, y | x in a && y in b && sha(LinkPayload(x)) == sha(LinkPayload(y))
      ensures NamedHash(x) == NamedHash(y) && x.params == y.params
    {
      NamedHashesAreColonFree(sha, a, x);
      NamedHashesAreColonFree(sha, b, y);
      PayloadInjective(NamedHash(x), x.params, NamedHash(y), y.params);
    }
  }

  lemma DigestsPinPrefixes(digest: Digest, a: seq<Link>, b: seq<Link>, a': seq<Link>, b': seq<Link>)
    requires DigestsPin(digest, a, b) && a' <= a && b' <= b
    ensures DigestsPin(digest, a', b')
  {
    assert forall z :: z in a' ==> z in a;
    assert forall z :: z in b' ==> z in b;
  }

  /** Links with the same hash name the same previous hash and fields, and are no first link of an empty log. */
  lemma LastLinksAgree(digest: Digest, a: seq<Link>, b: seq<Link>)
    requires DigestsPin(digest, a, b) && HashChain(digest, a) && HashChain(digest, b) && HeadHash(a) == HeadHash(b)
    ensures a == [] <==> b == []
    ensures a != [] ==> a[|a| - 1] == b[|b| - 1] && HeadHash(a[..|a| - 1]) == HeadHash(b[..|b| - 1])
  {
    assert a != [] ==> a[|a| - 1] in a && IsLink(digest, a[|a| - 1], HeadHash(a[..|a| - 1]));
    assert b != [] ==> b[|b| - 1] in b && IsLink(digest, b[|b| - 1], HeadHash(b[..|b| - 1]));
  }

  /** Two chains with the same head hash are the same chain: number, order and every hashed field. */
  lemma {:induction false} HeadPinsChain(digest: Digest, a: seq<Link>, b: seq<Link>)
    requires DigestsPin(digest, a, b)
    requires HashChain(digest, a) && HashChain(digest, b) && HeadHash(a) == HeadHash(b)
    ensures a == b
  {
    LastLinksAgree(digest, a, b);
    if a != [] {
      var a', b' := a[..|a| - 1], b[..|b| - 1];
      DigestsPinPrefixes(digest, a, b, a', b');
      HeadPinsChain(digest, a', b');
      assert a == a' + [a[|a| - 1]] && b == b' + [b[|b| - 1]];
    }
  }

  /**
   Against a log that verifies, another log with the same head hash verifies exactly when its chained rows are
   the same. So an edit, a reordering or a deletion before the last chained row is always reported.
   */
  lemma AlterationIsReported(sha: string -> string, rows: seq<Row>, altered: seq<Row>)
    requires HexDigests(sha) && CollisionFree(sha, Links(rows), Links(altered))
    requires PlainLinks(Links(rows)) && PlainLinks(Links(altered))
    requires HashChain(PayloadDigest(sha), Links(rows)) && HeadHash(Links(altered)) == HeadHash(Links(rows))
    ensures HashChain(PayloadDigest(sha), Links(altered)) <==> Links(altered) == Links(rows)
  {
    if HashChain(PayloadDigest(sha), Links(altered)) {
      CollisionFreeDigestsPin(sha, Links(rows), Links(altered));
      HeadPinsChain(PayloadDigest(sha), Links(rows), Links(altered));
    }
  }

  /**
   A chain is a prefix of another exactly when its head is one of the other's hashes (or the all-zero start): removing
   the newest chained rows is the only alteration that keeps a head hash the log once had.
   */
  lemma KnownHeadMeansTruncation(sha: string -> string, a: seq<Link>, b: seq<Link>)
    requires HexDigests(sha) && CollisionFree(sha, a, b) && PlainLinks(a) && PlainLinks(b)
    requires HashChain(PayloadDigest(sha), a) && HashChain(PayloadDigest(sha), b)
    ensures (exists k :: 0 <= k <= |a| && HeadHash(b) == HeadHash(a[..k])) <==> b <= a
  {
    CollisionFreeDigestsPin(sha, a, b);
    forall k | 0 <= k <= |a| && HeadHash(b) == HeadHash(a[..k])
      ensures b == a[..k]
    {
      PrefixOfChain(PayloadDigest(sha), a, k);
      HeadPinsChain(PayloadDigest(sha), a[..k], b);
    }
    if b <= a {
      assert b == a[..|b|];
    }
  }

  // ---- The service -----------------------------------------------------------------------------

  function OfOrganization(rows: seq<Row>, organizationId: string): seq<Row> {
    if rows == [] then []
    else
      var row := rows[|rows| - 1];
      OfOrganization(rows[..|rows| - 1], organizationId)
        + if row.params.organizationId == organizationId then [row] else []
  }

  /** The previous hash a new row names: that of the organization's newest row, or zeros when it has none. */
  function LatestHash(rows: seq<Row>): string {
    if rows == [] || StoredHash(rows[|rows| - 1]) == "" then GENESIS else StoredHash(rows[|rows| - 1])
  }

  function ChainedRow(digest: Digest, prevHash: string, p: Params, metadata: string, id: string, now: int): Row {
    Row(id, p, metadata, Some(Security(Some(digest(prevHash, p)), Some(prevHash))), now)
  }

  /** The rows the verification query returns: the oldest 500. */
  function ForVerification(rows: seq<Row>): seq<Row> {
    if |rows| <= VERIFICATION_LIMIT then rows else rows[..VERIFICATION_LIMIT]
  }

  /** One row of the walk: an unchained row changes nothing, a chained one extends the chain or breaks it. */
  lemma WalkRow(digest: Digest, logs: seq<Row>, i: nat)
    requires i < |logs| && HashChain(digest, Links(logs[..i]))
    ensures StoredHash(logs[i]) == "" ==> Links(logs[..i + 1]) == Links(logs[..i])
    ensures StoredHash(logs[i]) != "" ==>
              && (HashChain(digest, Links(logs[..i + 1])) <==>
                  IsLink(digest, LinkOf(logs[i]), HeadHash(Links(logs[..i]))))
              && HeadHash(Links(logs[..i + 1])) == StoredHash(logs[i])
    ensures HashChain(digest, Links(logs)) ==> HashChain(digest, Links(logs[..i + 1]))
  {
    LinksSnoc(logs, i);
    if StoredHash(logs[i]) != "" {
      HashChainSnoc(digest, Links(logs[..i]), LinkOf(logs[i]));
    }
    if HashChain(digest, Links(logs)) {
      ChainPrefix(digest, logs, i + 1);
    }
  }

  // ---- The walk in terms of the rows -----------------------------------------------------------

  /** The row stores this hash, and it is not empty. */
  ghost predicate HasHash(row: Row, hash: string) {
    row.security.Some? && row.security.value.hash == Some(hash) && hash != ""
  }

  ghost predicate NoHash(row: Row) {
    forall hash :: !HasHash(row, hash)
  }

  /** Row j is the last one before row i that stores a hash. */
  ghost predicate LastHashedBefore(rows: seq<Row>, i: nat, j: nat) {
    j < i <= |rows| && !NoHash(rows[j]) && forall k :: j < k < i ==> NoHash(rows[k])
  }

  /** What row i has to name: the hash of the last row before it that stores one, or sixty-four zeros. */
  ghost predicate NamedBy(rows: seq<Row>, i: nat, prev: string)
    requires i <= |rows|
  {
    if forall k :: 0 <= k < i ==> NoHash(rows[k]) then |prev| == 64 && forall k :: 0 <= k < 64 ==> prev[k] == '0'
    else exists j: nat :: LastHashedBefore(rows, i, j) && HasHash(rows[j], prev)
  }

  /** The row names `prev` and stores the digest of its six fields joined by colons. */
  ghost predicate Seals(sha: string -> string, row: Row, prev: string) {
    && row.security.Some? && row.security.value.prevHash == Some(prev)
    && row.security.value.hash == Some(sha(prev + ":" + row.params.organizationId + ":" + row.params.userId + ":"
                                           + EntityName(row.params.entityType) + ":" + row.params.entityId + ":"
                                           + ActionName(row.params.action)))
  }

  /** A row without a hash passes; another has to name the hash before it and store the digest of its own fields. */
  ghost predicate RowPasses(sha: string -> string, rows: seq<Row>, i: nat)
    requires i < |rows|
  {
    NoHash(rows[i]) || exists prev :: NamedBy(rows, i, prev) && Seals(sha, rows[i], prev)
  }

  lemma StoredHashIff(row: Row, hash: string)
    ensures HasHash(row, hash) <==> StoredHash(row) == hash && hash != ""
    ensures NoHash(row) <==> StoredHash(row) == ""
  {
    if StoredHash(row) != "" {
      assert HasHash(row, StoredHash(row));
    }
  }

  lemma JoinedByColons(h: string, p: Params)
    ensures Payload(h, p) == h + ":" + p.organizationId + ":" + p.userId + ":" + EntityName(p.entityType) + ":"
                             + p.entityId + ":" + ActionName(p.action)
  {
    assert ":" == [':'];
  }

  /** The hash to be named is the head of the chain so far, and nothing else. */
  lemma {:induction false} NamedIffHead(rows: seq<Row>, i: nat, prev: string)
    requires i <= |rows|
    ensures NamedBy(rows, i, prev) <==> prev == HeadHash(Links(rows[..i]))
  {
    if i == 0 {
      assert prev == Zeroes(64) <==> |prev| == 64 && forall k :: 0 <= k < 64 ==> prev[k] == '0';
    } else {
      var n := i - 1;
      NamedIffHead(rows, n, prev);
      NamedNext(rows, n, i, prev);
      HeadNext(rows, n, i);
      StoredHashIff(rows[n], prev);
      StoredHashIff(rows[n], "");
    }
  }

  lemma HeadNext(rows: seq<Row>, n: nat, i: nat)
    requires n < |rows| && i == n + 1
    ensures HeadHash(Links(rows[..i]))
            == if StoredHash(rows[n]) == "" then HeadHash(Links(rows[..n])) else StoredHash(rows[n])
  {
    LinksSnoc(rows, n);
  }

  lemma NamedNext(rows: seq<Row>, n: nat, i: nat, prev: string)
    requires n < |rows| && i == n + 1
    ensures NoHash(rows[n]) ==> (NamedBy(rows, i, prev) <==> NamedBy(rows, n, prev))
    ensures !NoHash(rows[n]) ==> (NamedBy(rows, i, prev) <==> HasHash(rows[n], prev))
  {
    if NoHash(rows[n]) {
      forall j: nat ensures LastHashedBefore(rows, i, j) <==> LastHashedBefore(rows, n, j) {
      }
    } else {
      assert LastHashedBefore(rows, i, n);
      forall j: nat | LastHashedBefore(rows, i, j) ensures j == n {
      }
    }
  }

  lemma SealsIff(sha: string -> string, row: Row, prev: string)
    requires StoredHash(row) != ""
    ensures Seals(sha, row, prev) <==> IsLink(PayloadDigest(sha), LinkOf(row), prev)
  {
    JoinedByColons(prev, row.params);
  }

  lemma RowPassesIff(sha: string -> string, rows: seq<Row>, n: nat)
    requires n < |rows|
    ensures RowPasses(sha, rows, n) <==>
            StoredHash(rows[n]) == "" || IsLink(PayloadDigest(sha), LinkOf(rows[n]), HeadHash(Links(rows[..n])))
  {
    StoredHashIff(rows[n], "");
    if StoredHash(rows[n]) != "" {
      var head := HeadHash(Links(rows[..n]));
      NamedIffHead(rows, n, head);
      SealsIff(sha, rows[n], head);
      forall prev | NamedBy(rows, n, prev) ensures prev == head {
        NamedIffHead(rows, n, prev);
      }
    }
  }

  lemma ChainNext(digest: Digest, rows: seq<Row>, n: nat, i: nat)
    requires n < |rows| && i == n + 1
    ensures HashChain(digest, Links(rows[..i])) <==>
            && HashChain(digest, Links(rows[..n]))
            && (StoredHash(rows[n]) == "" || IsLink(digest, LinkOf(rows[n]), HeadHash(Links(rows[..n]))))
  {
    LinksSnoc(rows, n);
    if StoredHash(rows[n]) != "" {
      HashChainSnoc(digest, Links(rows[..n]), LinkOf(rows[n]));
    }
  }

  ghost predicate AllPass(sha: string -> string, rows: seq<Row>, n: nat)
    requires n <= |rows|
  {
    forall i :: 0 <= i < n ==> RowPasses(sha, rows, i)
  }

  lemma AllPassNext(sha: string -> string, rows: seq<Row>, n: nat, i: nat)
    requires n < |rows| && i == n + 1
    ensures AllPass(sha, rows, i) <==> AllPass(sha, rows, n) && RowPasses(sha, rows, n)
  {
  }

  /** The links of the first rows form a hash chain exactly when every one of these rows passes. */
  lemma {:induction false} ChainIff(sha: string -> string, rows: seq<Row>, i: nat)
    requires i <= |rows|
    ensures HashChain(PayloadDigest(sha), Links(rows[..i])) <==> AllPass(sha, rows, i)
  {
    if i > 0 {
      var n := i - 1;
      ChainIff(sha, rows, n);
      ChainNext(PayloadDigest(sha), rows, n, i);
      RowPassesIff(sha, rows, n);
      AllPassNext(sha, rows, n, i);
    }
  }

  /** The rows of an organization are exactly those that name it, in the order of the log. */
  ghost predicate PickedBy(rows: seq<Row>, organizationId: string, mine: seq<Row>, at: seq<nat>) {
    && |at| == |mine|
    && (forall k :: 0 <= k < |at| ==> at[k] < |rows| && mine[k] == rows[at[k]])
    && (forall j, k :: 0 <= j < k < |at| ==> at[j] < at[k])
    && (forall i :: 0 <= i < |rows| ==> (rows[i].params.organizationId == organizationId <==> i in at))
  }

  lemma {:induction false} OfOrganizationPicks(rows: seq<Row>, organizationId: string) returns (at: seq<nat>)
    ensures PickedBy(rows, organizationId, OfOrganization(rows, organizationId), at)
  {
    at := [];
    if rows != [] {
      var n := |rows| - 1;
      at := OfOrganizationPicks(rows[..n], organizationId);
      if rows[n].params.organizationId == organizationId {
        at := at + [n];
      }
    }
  }

  /** The verdict of the walk: whether the chain holds, and if not where it breaks. */
  ghost predicate WalkVerdict(digest: Digest, logs: seq<Row>, v: Verdict) {
    && (v.valid <==> HashChain(digest, Links(logs)))
    && (v.valid ==> v.verifiedCount == |logs| && v.tamperedLogId == None)
    && (!v.valid ==>
          && v.verifiedCount < |logs| && v.tamperedLogId == Some(logs[v.verifiedCount].id)
          && HashChain(digest, Links(logs[..v.verifiedCount]))
          && !HashChain(digest, Links(logs[..v.verifiedCount + 1])))
  }

  lemma VerdictOnRows(sha: string -> string, mine: seq<Row>, logs: seq<Row>, v: Verdict)
    requires logs == ForVerification(mine) && WalkVerdict(PayloadDigest(sha), logs, v)
    ensures var n := if |mine| <= 500 then |mine| else 500;
            && logs == mine[..n]
            && (v.valid <==> AllPass(sha, mine, n))
            && (!v.valid ==> AllPass(sha, mine, v.verifiedCount) && !RowPasses(sha, mine, v.verifiedCount))
  {
    var n := if |mine| <= 500 then |mine| else 500;
    assert logs == mine[..n];
    ChainIff(sha, mine, n);
    if !v.valid {
      var k := v.verifiedCount;
      var i := k + 1;
      assert logs[..k] == mine[..k] && logs[..i] == mine[..i];
      ChainIff(sha, mine, k);
      ChainNext(PayloadDigest(sha), mine, k, i);
      RowPassesIff(sha, mine, k);
    }
  }

  /** The row names the hash of the newest row, or sixty-four zeros when there is none, and seals its fields with it. */
  ghost predicate ContinuesLog(sha: string -> string, mine: seq<Row>, log: Row) {
    exists prev :: Seals(sha, log, prev) &&
      if mine != [] && !NoHash(mine[|mine| - 1]) then HasHash(mine[|mine| - 1], prev)
      else |prev| == 64 && forall k :: 0 <= k < 64 ==> prev[k] == '0'
  }

  lemma ChainedRowContinues(sha: string -> string, mine: seq<Row>, p: Params, metadata: string, id: string, now: int)
    ensures var log := ChainedRow(PayloadDigest(sha), LatestHash(mine), p, metadata, id, now);
            log.params == p && ContinuesLog(sha, mine, log)
  {
    var prev := LatestHash(mine);
    if mine != [] {
      StoredHashIff(mine[|mine| - 1], prev);
      StoredHashIff(mine[|mine| - 1], "");
    }
    JoinedByColons(prev, p);
    assert Seals(sha, ChainedRow(PayloadDigest(sha), prev, p, metadata, id, now), prev);
  }

  class ActivityService {
    const sha256: string -> string
    var activityLog: seq<Row>

    constructor (sha256: string -> string)
      ensures this.sha256 == sha256 && activityLog == []
    {
      this.sha256 := sha256;
      activityLog := [];
    }

    method LogActivity(p: Params, metadata: string, id: string, now: int) returns (log: Row)
      modifies this
      ensures var prevHash := LatestHash(OfOrganization(old(activityLog), p.organizationId));
              log == ChainedRow(PayloadDigest(sha256), prevHash, p, metadata, id, now)
      ensures ContinuesLog(sha256, OfOrganization(old(activityLog), p.organizationId), log)
      ensures activityLog == old(activityLog) + [log]
    {
      ChainedRowContinues(sha256, OfOrganization(activityLog, p.organizationId), p, metadata, id, now);
      var latest := OfOrganization(activityLog, p.organizationId);
      var prevHash := GENESIS;
      if latest != [] {
        var stored := StoredHash(latest[|latest| - 1]);
        if stored != "" {
          prevHash := stored;
        }
      }
      var securityHash := sha256(Payload(prevHash, p));
      log := Row(id, p, metadata, Some(Security(Some(securityHash), Some(prevHash))), now);
      activityLog := activityLog + [log];
    }

    /** The walk accepts iff each of the organization's oldest 500 rows passes, and names the first that fails. */
    method VerifyAuditChainIntegrity(organizationId: string) returns (v: Verdict)
      ensures var mine := OfOrganization(activityLog, organizationId);
              var n := if |mine| <= 500 then |mine| else 500;
              && (v.valid <==> AllPass(sha256, mine, n))
              && (v.valid <==> HashChain(PayloadDigest(sha256), Links(mine[..n])))
              && (v.valid ==> v.verifiedCount == n && v.tamperedLogId == None)
              && (!v.valid ==>
                    && v.verifiedCount < n && v.tamperedLogId == Some(mine[v.verifiedCount].id)
                    && AllPass(sha256, mine, v.verifiedCount) && !RowPasses(sha256, mine, v.verifiedCount))
    {
      var logs := ForVerification(OfOrganization(activityLog, organizationId));
      v := Walk(logs);
      VerdictOnRows(sha256, OfOrganization(activityLog, organizationId), logs, v);
    }

    method Walk(logs: seq<Row>) returns (v: Verdict)
      ensures WalkVerdict(PayloadDigest(sha256), logs, v)
    {
      if |logs| == 0 {
        return Verdict(true, 0, None);
      }
      var expectedPrevHash := GENESIS;
      for i := 0 to |logs|
        invariant HashChain(PayloadDigest(sha256), Links(logs[..i]))
        invariant expectedPrevHash == HeadHash(Links(logs[..i]))
      {
        var log := logs[i];
        WalkRow(PayloadDigest(sha256), logs, i);
        if StoredHash(log) == "" {
          continue;
        }
        var security := log.security.value;
        if security.prevHash != Some(expectedPrevHash)
           || sha256(Payload(expectedPrevHash, log.params)) != StoredHash(log) {
          return Verdict(false, i, Some(log.id));
        }
        expectedPrevHash := StoredHash(log);
      }
      assert logs[..|logs|] == logs;
      return Verdict(true, |logs|, None);
    }
  }

  // ---- Interleaved calls -----------------------------------------------------------------------

  /** A call that has read the newest row but not yet appended; `seen` counts the organization's rows at the read. */
  datatype Pending = Pending(params: Params, prevHash: string, seen: nat)
  /** A row with, for rows appended by a call, the number of the organization's rows that call had seen. */
  datatype Logged = Logged(row: Row, seen: Option<nat>)
  datatype Event = Read(call: nat, params: Params) | Append(call: nat, metadata: string, id: string, now: int)
  datatype System = System(log: seq<Logged>, pending: map<nat, Pending>)

  function Of(log: seq<Logged>, organizationId: string): seq<Logged> {
    if log == [] then []
    else
      var last := log[|log| - 1];
      Of(log[..|log| - 1], organizationId) + if last.row.params.organizationId == organizationId then [last] else []
  }

  function Rows(log: seq<Logged>): (rows: seq<Row>)
    ensures |rows| == |log| && forall i :: 0 <= i < |log| ==> rows[i] == log[i].row
  {
    seq(|log|, i requires 0 <= i < |log| => log[i].row)
  }

  /** The two awaits of logActivity as separate steps; a step of a call not in its turn changes nothing. */
  function Step(digest: Digest, s: System, e: Event): System {
    match e
    case Read(call, p) =>
      if call in s.pending then s
      else
        var mine := Of(s.log, p.organizationId);
        s.(pending := s.pending[call := Pending(p, LatestHash(Rows(mine)), |mine|)])
    case Append(call, metadata, id, now) =>
      if call !in s.pending then s
      else
        var p := s.pending[call];
        System(s.log + [Logged(ChainedRow(digest, p.prevHash, p.params, metadata, id, now), Some(p.seen))],
               s.pending - {call})
  }

  function Run(digest: Digest, s: System, events: seq<Event>): System {
    if events == [] then s else Step(digest, Run(digest, s, events[..|events| - 1]), events[|events| - 1])
  }

  ghost predicate NonEmptyDigests(digest: Digest) {
    forall h, p :: digest(h, p) != ""
  }

  lemma HexDigestsAreNonEmpty(sha: string -> string)
    requires HexDigests(sha)
    ensures NonEmptyDigests(PayloadDigest(sha))
  {
    forall h, p ensures PayloadDigest(sha)(h, p) != "" {
      assert PayloadDigest(sha)(h, p) == sha(Payload(h, p));
    }
  }

  ghost predicate Unchained(log: seq<Logged>) {
    forall i :: 0 <= i < |log| ==> log[i].seen.None? && StoredHash(log[i].row) == ""
  }

  /** The chained rows among the first n. */
  ghost function LinksUpTo(mine: seq<Logged>, n: nat): seq<Link>
    requires n <= |mine|
  {
    Links(Rows(mine[..n]))
  }

  /** A call that saw the first `seen` rows holds their head hash; whatever came later was appended by calls. */
  ghost predicate SeenPrefix(mine: seq<Logged>, seen: nat, prevHash: string) {
    && seen <= |mine|
    && prevHash == HeadHash(LinksUpTo(mine, seen))
    && forall j :: seen <= j < |mine| ==> mine[j].seen.Some?
  }

  /** Unchained rows come first; a row appended by a call names the head its call saw and hashes it. */
  ghost predicate EntryOk(digest: Digest, mine: seq<Logged>, k: nat)
    requires k < |mine|
  {
    if mine[k].seen.None? then
      StoredHash(mine[k].row) == "" && forall j :: 0 <= j < k ==> mine[j].seen.None?
    else
      var row, seen := mine[k].row, mine[k].seen.value;
      && seen <= k
      && (forall j :: seen <= j < k ==> mine[j].seen.Some?)
      && var h := HeadHash(LinksUpTo(mine, seen));
      && row.security == Some(Security(Some(digest(h, row.params)), Some(h)))
  }

  /** What every reachable log of one organization looks like. */
  ghost predicate WellLogged(digest: Digest, mine: seq<Logged>) {
    forall k :: 0 <= k < |mine| ==> EntryOk(digest, mine, k)
  }

  ghost predicate Reachable(digest: Digest, s: System) {
    && (forall org :: WellLogged(digest, Of(s.log, org)))
    && (forall c :: c in s.pending ==>
          SeenPrefix(Of(s.log, s.pending[c].params.organizationId), s.pending[c].seen, s.pending[c].prevHash))
  }

  lemma {:induction false} UnchainedOf(log: seq<Logged>, org: string)
    requires Unchained(log)
    ensures Unchained(Of(log, org))
  {
    if log != [] {
      UnchainedOf(log[..|log| - 1], org);
    }
  }

  lemma {:induction false} NoLinks(rows: seq<Row>)
    requires forall i :: 0 <= i < |rows| ==> StoredHash(rows[i]) == ""
    ensures Links(rows) == []
  {
    if rows != [] {
      NoLinks(rows[..|rows| - 1]);
    }
  }

  lemma LatestIsHead(digest: Digest, mine: seq<Logged>)
    requires NonEmptyDigests(digest) && WellLogged(digest, mine)
    ensures LatestHash(Rows(mine)) == HeadHash(Links(Rows(mine)))
  {
    if mine != [] {
      assert EntryOk(digest, mine, |mine| - 1);
      if mine[|mine| - 1].seen.None? {
        forall j | 0 <= j < |mine| ensures StoredHash(Rows(mine)[j]) == "" {
          assert EntryOk(digest, mine, j);
        }
        NoLinks(Rows(mine));
      }
    }
  }

  lemma LinksUpToGrows(mine: seq<Logged>, next: Logged, n: nat)
    requires n <= |mine|
    ensures LinksUpTo(mine + [next], n) == LinksUpTo(mine, n)
  {
    assert (mine + [next])[..n] == mine[..n];
  }

  lemma AppendKeepsWellLogged(digest: Digest, mine: seq<Logged>, p: Pending, next: Logged)
    requires WellLogged(digest, mine) && SeenPrefix(mine, p.seen, p.prevHash)
    requires next.seen == Some(p.seen)
    requires next.row.security == Some(Security(Some(digest(p.prevHash, next.row.params)), Some(p.prevHash)))
    ensures WellLogged(digest, mine + [next])
  {
    var all := mine + [next];
    forall k | 0 <= k < |all| ensures EntryOk(digest, all, k) {
      if k < |mine| {
        assert EntryOk(digest, mine, k) && all[k] == mine[k];
        if mine[k].seen.Some? {
          LinksUpToGrows(mine, next, mine[k].seen.value);
        }
      } else {
        LinksUpToGrows(mine, next, p.seen);
      }
    }
  }

  lemma SeenPrefixGrows(mine: seq<Logged>, seen: nat, h: string, next: Logged)
    requires SeenPrefix(mine, seen, h) && next.seen.Some?
    ensures SeenPrefix(mine + [next], seen, h)
  {
    LinksUpToGrows(mine, next, seen);
  }

  lemma ReadKeepsReachable(digest: Digest, s: System, call: nat, p: Params)
    requires NonEmptyDigests(digest) && Reachable(digest, s)
    ensures Reachable(digest, Step(digest, s, Read(call, p)))
  {
    var mine := Of(s.log, p.organizationId);
    LatestIsHead(digest, mine);
    assert mine[..|mine|] == mine;
  }

  lemma OfSnoc(log: seq<Logged>, next: Logged, org: string)
    ensures Of(log + [next], org) == if next.row.params.organizationId == org then Of(log, org) + [next]
            else Of(log, org)
  {
    assert (log + [next])[..|log|] == log;
  }

  lemma AppendKeepsReachable(digest: Digest, s: System, call: nat, metadata: string, id: string, now: int)
    requires NonEmptyDigests(digest) && Reachable(digest, s) && call in s.pending
    ensures Reachable(digest, Step(digest, s, Append(call, metadata, id, now)))
  {
    var p := s.pending[call];
    var next := Logged(ChainedRow(digest, p.prevHash, p.params, metadata, id, now), Some(p.seen));
    var s' := System(s.log + [next], s.pending - {call});
    assert Step(digest, s, Append(call, metadata, id, now)) == s';
    forall org ensures WellLogged(digest, Of(s'.log, org)) {
      OfSnoc(s.log, next, org);
      if org == p.params.organizationId {
        AppendKeepsWellLogged(digest, Of(s.log, org), p, next);
      }
    }
    forall c | c in s'.pending
      ensures SeenPrefix(Of(s'.log, s'.pending[c].params.organizationId), s'.pending[c].seen, s'.pending[c].prevHash)
    {
      var q := s.pending[c];
      OfSnoc(s.log, next, q.params.organizationId);
      SeenPrefixGrows(Of(s.log, q.params.organizationId), q.seen, q.prevHash, next);
    }
  }

  lemma StepKeepsReachable(digest: Digest, s: System, e: Event)
    requires NonEmptyDigests(digest) && Reachable(digest, s)
    ensures Reachable(digest, Step(digest, s, e))
  {
    match e
    case Read(call, p) => ReadKeepsReachable(digest, s, call, p);
    case Append(call, metadata, id, now) =>
      if call in s.pending {
        AppendKeepsReachable(digest, s, call, metadata, id, now);
      }
  }

  lemma {:induction false} RunKeepsReachable(digest: Digest, legacy: seq<Logged>, events: seq<Event>)
    requires NonEmptyDigests(digest) && Unchained(legacy)
    ensures Reachable(digest, Run(digest, System(legacy, map[]), events))
  {
    if events == [] {
      forall org ensures WellLogged(digest, Of(legacy, org)) {
        UnchainedOf(legacy, org);
      }
    } else {
      RunKeepsReachable(digest, legacy, events[..|events| - 1]);
      StepKeepsReachable(digest, Run(digest, System(legacy, map[]), events[..|events| - 1]), events[|events| - 1]);
    }
  }

  /** Every row appended by a call was appended before any other row of its organization came in between. */
  ghost predicate NoStaleAppend(mine: seq<Logged>, n: nat)
    requires n <= |mine|
  {
    forall k :: 0 <= k < n && mine[k].seen.Some? ==> mine[k].seen.value == k
  }

  lemma LinksUpToNext(mine: seq<Logged>, n: nat)
    requires n < |mine|
    ensures LinksUpTo(mine, n + 1) ==
            if StoredHash(mine[n].row) == "" then LinksUpTo(mine, n) else LinksUpTo(mine, n) + [LinkOf(mine[n].row)]
  {
    var rows := Rows(mine[..n + 1]);
    LinksSnoc(rows, n);
    assert rows[..n + 1] == rows;
    assert rows[..n] == Rows(mine[..n]);
  }

  lemma PrefixOfSnoc(a: seq<Link>, b: seq<Link>, x: Link)
    requires a <= b
    ensures a <= b + [x]
  {
  }

  lemma {:induction false} LinksUpToPrefix(mine: seq<Logged>, m: nat, n: nat)
    requires m <= n <= |mine|
    ensures LinksUpTo(mine, m) <= LinksUpTo(mine, n)
  {
    if m < n {
      LinksUpToPrefix(mine, m, n - 1);
      LinksUpToNext(mine, n - 1);
      if StoredHash(mine[n - 1].row) != "" {
        PrefixOfSnoc(LinksUpTo(mine, m), LinksUpTo(mine, n - 1), LinkOf(mine[n - 1].row));
      }
    }
  }

  lemma NextLink(digest: Digest, mine: seq<Logged>, n: nat)
    requires NonEmptyDigests(digest) && WellLogged(digest, mine) && n < |mine|
    requires HashChain(digest, LinksUpTo(mine, n))
    ensures mine[n].seen.None? ==> HashChain(digest, LinksUpTo(mine, n + 1))
    ensures mine[n].seen.Some? ==>
              && mine[n].seen.value <= n
              && (HashChain(digest, LinksUpTo(mine, n + 1)) <==>
                  HeadHash(LinksUpTo(mine, mine[n].seen.value)) == HeadHash(LinksUpTo(mine, n)))
  {
    LinksUpToNext(mine, n);
    assert EntryOk(digest, mine, n);
    if mine[n].seen.Some? {
      HashChainSnoc(digest, LinksUpTo(mine, n), LinkOf(mine[n].row));
    }
  }

  /** Without a stale append the log verifies; this needs nothing of the hash. */
  lemma {:induction false} FreshLogsVerify(digest: Digest, mine: seq<Logged>, n: nat)
    requires NonEmptyDigests(digest) && WellLogged(digest, mine) && n <= |mine| && NoStaleAppend(mine, n)
    ensures HashChain(digest, LinksUpTo(mine, n))
  {
    if n > 0 {
      FreshLogsVerify(digest, mine, n - 1);
      NextLink(digest, mine, n - 1);
    }
  }

  /** No proper prefix of a chain has the head hash of the whole: hashes do not repeat. */
  lemma ProperPrefixHasOtherHead(digest: Digest, links: seq<Link>, k: nat)
    requires DigestsPin(digest, links, links) && HashChain(digest, links) && k < |links|
    ensures HeadHash(links[..k]) != HeadHash(links)
  {
    var init := links[..k];
    PrefixOfChain(digest, links, k);
    assert forall x :: x in init ==> x in links;
    if HeadHash(init) == HeadHash(links) {
      HeadPinsChain(digest, init, links);
    }
  }

  lemma SeenRowIsChained(digest: Digest, mine: seq<Logged>, m: nat, k: nat)
    requires NonEmptyDigests(digest) && WellLogged(digest, mine) && m < k < |mine| && mine[k].seen == Some(m)
    ensures StoredHash(mine[m].row) != ""
  {
    assert EntryOk(digest, mine, k);
    assert EntryOk(digest, mine, m);
  }

  /** The links before a row appended by a call are a proper part of the links after it. */
  lemma AppendedRowAddsLink(digest: Digest, mine: seq<Logged>, m: nat, k: nat)
    requires NonEmptyDigests(digest) && WellLogged(digest, mine) && m < k < |mine| && mine[k].seen == Some(m)
    ensures var all, some := LinksUpTo(mine, k), LinksUpTo(mine, m); |some| < |all| && all[..|some|] == some
  {
    SeenRowIsChained(digest, mine, m, k);
    LinksUpToNext(mine, m);
    LinksUpToPrefix(mine, m + 1, k);
  }

  /** A stale read saw another head hash than the one the row has to name. */
  lemma StaleAppendBreaks(digest: Digest, mine: seq<Logged>, m: nat, k: nat)
    requires NonEmptyDigests(digest) && WellLogged(digest, mine) && m < k < |mine| && mine[k].seen == Some(m)
    requires DigestsPin(digest, LinksUpTo(mine, k), LinksUpTo(mine, k)) && HashChain(digest, LinksUpTo(mine, k))
    ensures HeadHash(LinksUpTo(mine, m)) != HeadHash(LinksUpTo(mine, k))
  {
    AppendedRowAddsLink(digest, mine, m, k);
    ProperPrefixHasOtherHead(digest, LinksUpTo(mine, k), |LinksUpTo(mine, m)|);
  }

  lemma PinnedPrefix(digest: Digest, all: seq<Link>, some: seq<Link>)
    requires DigestsPin(digest, all, all) && HashChain(digest, all) && some <= all
    ensures DigestsPin(digest, some, some) && HashChain(digest, some)
  {
    assert some == all[..|some|];
    PrefixOfChain(digest, all, |some|);
    assert forall x :: x in some ==> x in all;
  }

  lemma {:induction false} StaleLogsFail(digest: Digest, mine: seq<Logged>, n: nat)
    requires NonEmptyDigests(digest) && WellLogged(digest, mine) && n <= |mine|
    requires DigestsPin(digest, LinksUpTo(mine, n), LinksUpTo(mine, n))
    requires HashChain(digest, LinksUpTo(mine, n))
    ensures NoStaleAppend(mine, n)
  {
    if n > 0 {
      var k := n - 1;
      LinksUpToPrefix(mine, k, n);
      PinnedPrefix(digest, LinksUpTo(mine, n), LinksUpTo(mine, k));
      StaleLogsFail(digest, mine, k);
      NextLink(digest, mine, k);
      if mine[k].seen.Some? && mine[k].seen.value < k {
        StaleAppendBreaks(digest, mine, mine[k].seen.value, k);
      }
    }
  }

  /**
   In every interleaving of the calls' two steps, an organization's log verifies exactly when none of its first 500
   rows was appended by a call whose read had gone stale.
   */
  lemma InterleavedLogsVerifyIff(sha: string -> string, legacy: seq<Logged>, events: seq<Event>, org: string)
    requires HexDigests(sha) && Unchained(legacy)
    requires var mine := Of(Run(PayloadDigest(sha), System(legacy, map[]), events).log, org);
             var links := Links(Rows(if |mine| <= 500 then mine else mine[..500]));
             PlainLinks(links) && CollisionFree(sha, links, links)
    ensures var mine := Of(Run(PayloadDigest(sha), System(legacy, map[]), events).log, org);
            var n := if |mine| <= 500 then |mine| else 500;
            AllPass(sha, Rows(mine), n) <==> NoStaleAppend(mine, n)
  {
    var digest := PayloadDigest(sha);
    HexDigestsAreNonEmpty(sha);
    RunKeepsReachable(digest, legacy, events);
    var mine := Of(Run(digest, System(legacy, map[]), events).log, org);
    var n := if |mine| <= 500 then |mine| else 500;
    var links := LinksUpTo(mine, n);
    assert mine[..n] == if |mine| <= 500 then mine else mine[..500];
    assert Rows(mine)[..n] == Rows(mine[..n]);
    ChainIff(sha, Rows(mine), n);
    if NoStaleAppend(mine, n) {
      FreshLogsVerify(digest, mine, n);
    }
    if HashChain(digest, links) {
      CollisionFreeDigestsPin(sha, links, links);
      StaleLogsFail(digest, mine, n);
    }
  }

  // ---- Calls one after another -------------------------------------------------------------------

  datatype Call = Call(params: Params, metadata: string, id: string, now: int)

  /** The table after a run of LogActivity calls. */
  ghost function LogAll(digest: Digest, table: seq<Row>, calls: seq<Call>): seq<Row> {
    if calls == [] then table
    else
      var before, c := LogAll(digest, table, calls[..|calls| - 1]), calls[|calls| - 1];
      var prevHash := LatestHash(OfOrganization(before, c.params.organizationId));
      before + [ChainedRow(digest, prevHash, c.params, c.metadata, c.id, c.now)]
  }

  ghost function OneByOne(calls: seq<Call>): seq<Event> {
    if calls == [] then []
    else
      var c := calls[|calls| - 1];
      OneByOne(calls[..|calls| - 1]) + [Read(0, c.params), Append(0, c.metadata, c.id, c.now)]
  }

  lemma {:induction false} RowsOfOrganization(log: seq<Logged>, org: string)
    ensures Rows(Of(log, org)) == OfOrganization(Rows(log), org)
  {
    if log != [] {
      RowsOfOrganization(log[..|log| - 1], org);
      assert Rows(log)[..|log| - 1] == Rows(log[..|log| - 1]);
    }
  }

  lemma RunTwo(digest: Digest, s: System, events: seq<Event>, a: Event, b: Event)
    ensures Run(digest, s, events + [a, b]) == Step(digest, Step(digest, Run(digest, s, events), a), b)
  {
    assert (events + [a, b])[..|events| + 1] == events + [a];
    assert (events + [a])[..|events|] == events;
  }

  /** A call that runs to its end without another in between appends the row that LogAll appends. */
  lemma WholeCall(digest: Digest, s: System, c: Call)
    requires s.pending == map[]
    ensures var after := Step(digest, Step(digest, s, Read(0, c.params)), Append(0, c.metadata, c.id, c.now));
            var mine := Of(s.log, c.params.organizationId);
            && after.pending == map[]
            && after.log == s.log
               + [Logged(ChainedRow(digest, LatestHash(Rows(mine)), c.params, c.metadata, c.id, c.now), Some(|mine|))]
  {
  }

  lemma FreshAppend(log: seq<Logged>, next: Logged, org: string)
    requires next.seen == Some(|Of(log, next.row.params.organizationId)|)
    requires NoStaleAppend(Of(log, org), |Of(log, org)|)
    ensures NoStaleAppend(Of(log + [next], org), |Of(log + [next], org)|)
  {
    OfSnoc(log, next, org);
  }

  /** One whole call at the end of a run of whole calls. */
  lemma LastCall(digest: Digest, start: System, calls: seq<Call>)
    requires calls != [] && Run(digest, start, OneByOne(calls[..|calls| - 1])).pending == map[]
    ensures var before, after, c := Run(digest, start, OneByOne(calls[..|calls| - 1])),
            Run(digest, start, OneByOne(calls)), calls[|calls| - 1];
            var mine := Of(before.log, c.params.organizationId);
            && after.pending == map[]
            && after.log == before.log
               + [Logged(ChainedRow(digest, LatestHash(Rows(mine)), c.params, c.metadata, c.id, c.now), Some(|mine|))]
  {
    var init, c := calls[..|calls| - 1], calls[|calls| - 1];
    RunTwo(digest, start, OneByOne(init), Read(0, c.params), Append(0, c.metadata, c.id, c.now));
    WholeCall(digest, Run(digest, start, OneByOne(init)), c);
  }

  lemma {:induction false} OneByOneIsLogAll(digest: Digest, legacy: seq<Logged>, calls: seq<Call>)
    ensures var s := Run(digest, System(legacy, map[]), OneByOne(calls));
            s.pending == map[] && Rows(s.log) == LogAll(digest, Rows(legacy), calls)
  {
    if calls != [] {
      var init, c := calls[..|calls| - 1], calls[|calls| - 1];
      OneByOneIsLogAll(digest, legacy, init);
      LastCall(digest, System(legacy, map[]), calls);
      RowsOfOrganization(Run(digest, System(legacy, map[]), OneByOne(init)).log, c.params.organizationId);
    }
  }

  lemma {:induction false} OneByOneIsFresh(digest: Digest, legacy: seq<Logged>, calls: seq<Call>, org: string)
    requires NoStaleAppend(Of(legacy, org), |Of(legacy, org)|)
    ensures var log := Run(digest, System(legacy, map[]), OneByOne(calls)).log;
            NoStaleAppend(Of(log, org), |Of(log, org)|)
  {
    if calls != [] {
      var init := calls[..|calls| - 1];
      OneByOneIsFresh(digest, legacy, init, org);
      OneByOneIsLogAll(digest, legacy, init);
      LastCall(digest, System(legacy, map[]), calls);
      var before, after := Run(digest, System(legacy, map[]), OneByOne(init)).log,
                           Run(digest, System(legacy, map[]), OneByOne(calls)).log;
      FreshAppend(before, after[|before|], org);
    }
  }

  /** Calls that run one after another, over any organizations and after any unchained rows, leave logs that verify. */
  lemma HonestLogsVerify(sha: string -> string, legacy: seq<Row>, calls: seq<Call>, org: string)
    requires HexDigests(sha) && forall i :: 0 <= i < |legacy| ==> StoredHash(legacy[i]) == ""
    ensures var mine := OfOrganization(LogAll(PayloadDigest(sha), legacy, calls), org);
            AllPass(sha, mine, |mine|)
  {
    var digest := PayloadDigest(sha);
    var logged := seq(|legacy|, i requires 0 <= i < |legacy| => Logged(legacy[i], None));
    assert Rows(logged) == legacy;
    OneByOneIsLogAll(digest, logged, calls);
    HexDigestsAreNonEmpty(sha);
    RunKeepsReachable(digest, logged, OneByOne(calls));
    UnchainedOf(logged, org);
    OneByOneIsFresh(digest, logged, calls, org);
    var s := Run(digest, System(logged, map[]), OneByOne(calls));
    var mine := Of(s.log, org);
    RowsOfOrganization(s.log, org);
    FreshLogsVerify(digest, mine, |mine|);
    assert mine[..|mine|] == mine && Rows(mine)[..|mine|] == Rows(mine);
    ChainIff(sha, Rows(mine), |mine|);
  }
}
