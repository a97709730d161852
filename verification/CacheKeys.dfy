/** The keys of the shared cache: their texts, and the pattern that names an organization's project lists. */
module CacheKeys {
  import opened Common

  // ---- Identifiers -----------------------------------------------------------------------------------------

  predicate IdChar(c: char) {
    '0' <= c <= '9' || 'a' <= c <= 'f' || 'A' <= c <= 'F' || c == '-'
  }

  /** Identifiers are UUIDs: hexadecimal digits and hyphens. */
  predicate PlainId(id: string) {
    forall i :: 0 <= i < |id| ==> IdChar(id[i])
  }

  // ---- The query of a project list, as JSON ------------------------------------------------------------------

  datatype Status = ACTIVE | ARCHIVED

  datatype Query = Query(page: nat, limit: nat, status: Option<Status>, search: Option<string>)

  function HexDigit(d: nat): char
    requires d < 16
  {
    if d < 10 then (d + 48) as char else (d + 87) as char
  }

  function HexValue(c: char): nat {
    if '0' <= c <= '9' then c as int - 48 else if 'a' <= c <= 'f' then c as int - 87 else 0
  }

  /** A character of a JSON string as JSON.stringify writes it. */
  function Escape(c: char): (r: string)
    ensures r != "" && r[0] != '"'
  {
    if c == '"' then "\\\""
    else if c == '\\' then "\\\\"
    else if c as int == 8 then "\\b"
    else if c == '\t' then "\\t"
    else if c == '\n' then "\\n"
    else if c as int == 12 then "\\f"
    else if c == '\r' then "\\r"
    else if c as int < 32 then "\\u00" + [HexDigit(c as int / 16), HexDigit(c as int % 16)]
    else [c]
  }

  function Escaped(s: string): string {
    if s == "" then "" else Escape(s[0]) + Escaped(s[1..])
  }

  function StatusText(status: Option<Status>): string {
    match status
    case None => ""
    case Some(ACTIVE) => ",\"status\":\"ACTIVE\""
    case Some(ARCHIVED) => ",\"status\":\"ARCHIVED\""
  }

  function SearchText(search: Option<string>): string {
    match search
    case None => "}"
    case Some(s) => ",\"search\":\"" + (Escaped(s) + "\"}")
  }

  /** JSON.stringify of a validated query, whose fields come in this order and are left out when undefined. */
  function Json(q: Query): string {
    "{\"page\":"
    + (Decimal(q.page) + (",\"limit\":" + (Decimal(q.limit) + (StatusText(q.status) + SearchText(q.search)))))
  }

  lemma SameRest(p: string, x: string, y: string)
    requires p + x == p + y
    ensures x == y
  {
    assert x == (p + x)[|p|..] && y == (p + y)[|p|..];
  }

  lemma Associative(a: string, b: string, c: string)
    ensures a + (b + c) == (a + b) + c
  {
  }

  predicate NoDigitFirst(s: string) {
    s != "" && !('0' <= s[0] <= '9')
  }

  lemma NumeralNotLonger(a: string, x: string, b: string, y: string)
    requires forall i :: 0 <= i < |a| ==> '0' <= a[i] <= '9'
    requires NoDigitFirst(y)
    requires a + x == b + y
    ensures |a| <= |b|
  {
    assert (b + y)[|b|] == y[0];
    assert forall i :: 0 <= i < |a| ==> (a + x)[i] == a[i];
  }

  lemma NumeralsEnd(m: nat, x: string, n: nat, y: string)
    requires NoDigitFirst(x) && NoDigitFirst(y)
    requires Decimal(m) + x == Decimal(n) + y
    ensures m == n && x == y
  {
    var a, b := Decimal(m), Decimal(n);
    NumeralNotLonger(a, x, b, y);
    NumeralNotLonger(b, y, a, x);
    assert a == (a + x)[..|a|] && b == (b + y)[..|b|];
    DecimalInjective(m, n);
    SameRest(a, x, y);
  }

  /** The character that the escape at the front of a JSON string stands for. */
  function FirstChar(s: string): char
    requires s != ""
  {
    if s[0] != '\\' || |s| == 1 then s[0]
    else if s[1] == 'b' then 8 as char
    else if s[1] == 't' then '\t'
    else if s[1] == 'n' then '\n'
    else if s[1] == 'f' then 12 as char
    else if s[1] == 'r' then '\r'
    else if s[1] == 'u' && |s| >= 6 then (16 * HexValue(s[4]) + HexValue(s[5])) as char
    else s[1]
  }

  lemma FirstCharOfEscape(c: char, x: string)
    ensures FirstChar(Escape(c) + x) == c
  {
    var e := Escape(c);
    var s := e + x;
    assert s[0] == e[0];
    if |e| == 2 {
      assert s[1] == e[1];
    } else if |e| == 6 {
      assert s[1] == e[1] && s[4] == e[4] && s[5] == e[5];
    }
  }

  lemma EscapedFront(s: string, e: string)
    requires s != ""
    ensures Escaped(s) + e == Escape(s[0]) + (Escaped(s[1..]) + e) && FirstChar(Escaped(s) + e) == s[0]
  {
    assert Escaped(s) + e == Escape(s[0]) + (Escaped(s[1..]) + e);
    FirstCharOfEscape(s[0], Escaped(s[1..]) + e);
  }

  lemma {:induction false} EscapedEnds(s: string, t: string, e: string)
    requires e != "" && e[0] == '"'
    requires Escaped(s) + e == Escaped(t) + e
    ensures s == t
  {
    QuoteEnds(s, e);
    QuoteEnds(t, e);
    if s != "" && t != "" {
      EscapedFront(s, e);
      EscapedFront(t, e);
      SameRest(Escape(s[0]), Escaped(s[1..]) + e, Escaped(t[1..]) + e);
      EscapedEnds(s[1..], t[1..], e);
      assert s == [s[0]] + s[1..] && t == [t[0]] + t[1..];
    }
  }

  /** A quote comes first only when the string is over. */
  lemma QuoteEnds(s: string, e: string)
    requires e != "" && e[0] == '"'
    ensures (Escaped(s) + e)[0] == '"' <==> s == ""
  {
    if s != "" {
      assert (Escaped(s) + e)[0] == Escape(s[0])[0];
    }
  }

  lemma SearchEnds(a: Option<string>, b: Option<string>)
    requires SearchText(a) == SearchText(b)
    ensures a == b
  {
    var x, y := SearchText(a), SearchText(b);
    assert x[0] == y[0];
    if a.Some? && b.Some? {
      SameRest(",\"search\":\"", Escaped(a.value) + "\"}", Escaped(b.value) + "\"}");
      EscapedEnds(a.value, b.value, "\"}");
    }
  }

  /**
   The status that a text begins with: the search field differs at the fourth character, the two statuses at the
   thirteenth.
   */
  function StatusOf(x: string): Option<Status> {
    if |x| > 12 && x[0] == ',' && x[3] == 't' then Some(if x[12] == 'C' then ACTIVE else ARCHIVED) else None
  }

  lemma StatusOfText(status: Option<Status>, search: Option<string>)
    ensures var x := StatusText(status) + SearchText(search); StatusOf(x) == status && NoDigitFirst(x)
  {
    var s := StatusText(status);
    var x := s + SearchText(search);
    if status.Some? {
      assert x[0] == s[0] && x[3] == s[3] && x[12] == s[12];
    } else if search.Some? {
      assert x == ",\"search\":\"" + (Escaped(search.value) + "\"}");
      assert x[3] == ",\"search\":\""[3];
    }
  }

  /** Different queries have different JSON texts. */
  lemma JsonInjective(a: Query, b: Query)
    requires Json(a) == Json(b)
    ensures a == b
  {
    var ta, tb := StatusText(a.status) + SearchText(a.search), StatusText(b.status) + SearchText(b.search);
    var la, lb := ",\"limit\":" + (Decimal(a.limit) + ta), ",\"limit\":" + (Decimal(b.limit) + tb);
    SameRest("{\"page\":", Decimal(a.page) + la, Decimal(b.page) + lb);
    NumeralsEnd(a.page, la, b.page, lb);
    SameRest(",\"limit\":", Decimal(a.limit) + ta, Decimal(b.limit) + tb);
    StatusOfText(a.status, a.search);
    StatusOfText(b.status, b.search);
    NumeralsEnd(a.limit, ta, b.limit, tb);
    SameRest(StatusText(a.status), SearchText(a.search), SearchText(b.search));
    SearchEnds(a.search, b.search);
  }

  // ---- The keys ------------------------------------------------------------------------------------------------

  datatype Key =
    | OrganizationKey(organizationId: string)
    | UserOrganizationsKey(userId: string)
    | ProjectKey(organizationId: string, projectId: string)
    | ProjectsListKey(organizationId: string, query: Query)
  {
    predicate Valid() {
      match this
      case UserOrganizationsKey(_) => true
      case _ => PlainId(organizationId)
    }

    function Text(): string {
      match this
      case OrganizationKey(o) => "org:" + o
      case UserOrganizationsKey(u) => "user:" + (u + ":orgs")
      case ProjectKey(o, p) => "org:" + (o + (":project:" + p))
      case ProjectsListKey(o, q) => "org:" + (o + (":projects:" + Json(q)))
    }
  }

  function ProjectsListPattern(organizationId: string): string {
    "org:" + (organizationId + ":projects:*")
  }

  /** What an id is followed by: nothing, or something that begins with a colon. */
  predicate ColonFirst(s: string) {
    s == "" || s[0] == ':'
  }

  lemma IdNotLonger(a: string, x: string, b: string, y: string)
    requires PlainId(a) && ColonFirst(y) && a + x == b + y
    ensures |a| <= |b|
  {
    assert y != "" ==> (b + y)[|b|] == y[0];
    assert forall i :: 0 <= i < |a| ==> (a + x)[i] == a[i];
    assert |a + x| == |b + y|;
  }

  lemma IdsEnd(a: string, x: string, b: string, y: string)
    requires PlainId(a) && PlainId(b) && ColonFirst(x) && ColonFirst(y) && a + x == b + y
    ensures a == b && x == y
  {
    IdNotLonger(a, x, b, y);
    IdNotLonger(b, y, a, x);
    assert a == (a + x)[..|a|] && b == (b + y)[..|b|];
    SameRest(a, x, y);
  }

  /** What comes after the organization in a key that has one. */
  function Tail(k: Key): (t: string)
    requires !k.UserOrganizationsKey?
    ensures k.Text() == "org:" + (k.organizationId + t) && ColonFirst(t)
  {
    match k
    case OrganizationKey(o) => assert "org:" + o == "org:" + (o + ""); ""
    case ProjectKey(_, p) => ":project:" + p
    case ProjectsListKey(_, q) => ":projects:" + Json(q)
  }

  datatype Kind = Whole | Single | Listing

  /** The kind of key that a tail belongs to: a project's has a colon where a list's has an s. */
  function KindOf(tail: string): Kind {
    if tail == "" then Whole else if |tail| > 8 && tail[8] == ':' then Single else Listing
  }

  lemma KindOfTail(k: Key)
    requires !k.UserOrganizationsKey?
    ensures KindOf(Tail(k)) == match k {
                                 case OrganizationKey(_) => Whole
                                 case ProjectKey(_, _) => Single
                                 case _ => Listing
                               }
  {
    if k.ProjectKey? {
      assert Tail(k)[8] == ":project:"[8];
    } else if k.ProjectsListKey? {
      assert Tail(k)[8] == ":projects:"[8];
    }
  }

  lemma TailsAreInjective(k: Key, l: Key)
    requires !k.UserOrganizationsKey? && !l.UserOrganizationsKey?
    requires k.organizationId == l.organizationId && Tail(k) == Tail(l)
    ensures k == l
  {
    KindOfTail(k);
    KindOfTail(l);
    if k.ProjectKey? {
      SameRest(":project:", k.projectId, l.projectId);
    } else if k.ProjectsListKey? {
      SameRest(":projects:", Json(k.query), Json(l.query));
      JsonInjective(k.query, l.query);
    }
  }

  lemma FirstOfKey(k: Key)
    ensures k.Text() != "" && (k.Text()[0] == 'u' <==> k.UserOrganizationsKey?)
  {
  }

  /** No two cache keys have the same text, whatever the project and user ids are. */
  lemma KeysAreInjective(k: Key, l: Key)
    requires k.Valid() && l.Valid()
    requires k.Text() == l.Text()
    ensures k == l
  {
    FirstOfKey(k);
    FirstOfKey(l);
    if k.UserOrganizationsKey? {
      SameRest("user:", k.userId + ":orgs", l.userId + ":orgs");
      assert |k.userId| == |l.userId|;
      assert k.userId == (k.userId + ":orgs")[..|k.userId|] && l.userId == (l.userId + ":orgs")[..|l.userId|];
    } else {
      SameRest("org:", k.organizationId + Tail(k), l.organizationId + Tail(l));
      IdsEnd(k.organizationId, Tail(k), l.organizationId, Tail(l));
      TailsAreInjective(k, l);
    }
  }

  /** With colons in an organization id, keys may share a text. */
  lemma ColonsCollide(o: string, a: string, b: string)
    ensures ProjectKey(o + (":project:" + a), b).Text() == ProjectKey(o, a + (":project:" + b)).Text()
  {
    Associative(o, ":project:" + a, ":project:" + b);
    Associative(":project:", a, ":project:" + b);
  }

  /** The texts of the keys and of the pattern, written out. */
  lemma KeyTexts(o: string, p: string, u: string, q: Query)
    ensures OrganizationKey(o).Text() == "org:" + o
    ensures UserOrganizationsKey(u).Text() == "user:" + u + ":orgs"
    ensures ProjectKey(o, p).Text() == "org:" + o + ":project:" + p
    ensures ProjectsListKey(o, q).Text() == "org:" + o + ":projects:" + Json(q)
    ensures ProjectsListPattern(o) == "org:" + o + ":projects:*"
  {
    Associative("user:", u, ":orgs");
    Associative(o, ":project:", p);
    Associative("org:", o, ":project:" + p);
    Associative("org:" + o, ":project:", p);
    Associative(o, ":projects:", Json(q));
    Associative("org:", o, ":projects:" + Json(q));
    Associative("org:" + o, ":projects:", Json(q));
    Associative("org:", o, ":projects:*");
  }

  /** The JSON of a query, written out: two numbers, then the status and the search if there are any. */
  lemma JsonTexts(page: nat, limit: nat, search: string)
    ensures var numbers := "{\"page\":" + Decimal(page) + ",\"limit\":" + Decimal(limit);
            && Json(Query(page, limit, None, None)) == numbers + "}"
            && Json(Query(page, limit, Some(ACTIVE), None)) == numbers + ",\"status\":\"ACTIVE\"}"
            && Json(Query(page, limit, Some(ARCHIVED), None)) == numbers + ",\"status\":\"ARCHIVED\"}"
            && Json(Query(page, limit, None, Some(search))) == numbers + ",\"search\":\"" + Escaped(search) + "\"}"
  {
    JsonParts(page, limit, None, None);
    JsonParts(page, limit, Some(ACTIVE), None);
    JsonParts(page, limit, Some(ARCHIVED), None);
    JsonParts(page, limit, None, Some(search));
    var numbers := "{\"page\":" + Decimal(page) + ",\"limit\":" + Decimal(limit);
    assert ",\"status\":\"ACTIVE\"" + "}" == ",\"status\":\"ACTIVE\"}";
    assert ",\"status\":\"ARCHIVED\"" + "}" == ",\"status\":\"ARCHIVED\"}";
    assert "" + "}" == "}";
    assert "" + SearchText(Some(search)) == SearchText(Some(search));
    Associative(numbers + ",\"search\":\"", Escaped(search), "\"}");
    Associative(numbers, ",\"search\":\"", Escaped(search) + "\"}");
  }

  lemma JsonParts(page: nat, limit: nat, status: Option<Status>, search: Option<string>)
    ensures Json(Query(page, limit, status, search))
            == "{\"page\":" + Decimal(page) + ",\"limit\":" + Decimal(limit) + (StatusText(status) + SearchText(search))
  {
    var rest := StatusText(status) + SearchText(search);
    Associative(",\"limit\":", Decimal(limit), rest);
    Associative(Decimal(page), ",\"limit\":" + Decimal(limit), rest);
    Associative(Decimal(page), ",\"limit\":", Decimal(limit));
    Associative("{\"page\":", Decimal(page) + (",\"limit\":" + Decimal(limit)), rest);
    Associative("{\"page\":", Decimal(page), ",\"limit\":" + Decimal(limit));
    Associative("{\"page\":" + Decimal(page), ",\"limit\":", Decimal(limit));
  }

  // ---- Redis patterns ------------------------------------------------------------------------------------------

  /** Redis glob matching, for patterns without character classes. */
  predicate Matches(p: string, s: string)
    decreases |p| + |s|
  {
    if p == "" then s == ""
    else if p[0] == '*' then Matches(p[1..], s) || (s != "" && Matches(p, s[1..]))
    else if s == "" then false
    else if p[0] == '?' then Matches(p[1..], s[1..])
    else if p[0] == '\\' && |p| > 1 then p[1] == s[0] && Matches(p[2..], s[1..])
    else p[0] == s[0] && Matches(p[1..], s[1..])
  }

  predicate Literal(c: char) {
    c != '*' && c != '?' && c != '\\' && c != '['
  }

  lemma {:induction false} StarMatchesAll(s: string)
    ensures Matches("*", s)
  {
    if s == "" {
      assert "*"[1..] == "";
    } else {
      StarMatchesAll(s[1..]);
    }
  }

  /** Literal characters and a final star match exactly the strings that begin with those characters. */
  lemma {:induction false} StarMatchesPrefix(p: string, s: string)
    requires forall i :: 0 <= i < |p| ==> Literal(p[i])
    ensures Matches(p + "*", s) <==> p <= s
  {
    if p == "" {
      assert p + "*" == "*";
      StarMatchesAll(s);
    } else if s != "" {
      assert (p + "*")[1..] == p[1..] + "*" && (p + "*")[0] == p[0];
      StarMatchesPrefix(p[1..], s[1..]);
      assert p == [p[0]] + p[1..] && s == [s[0]] + s[1..];
    }
  }

  lemma PatternIsPrefix(o: string)
    requires PlainId(o)
    ensures var p := "org:" + (o + ":projects:");
            ProjectsListPattern(o) == p + "*" && forall i :: 0 <= i < |p| ==> Literal(p[i])
  {
    var p := "org:" + (o + ":projects:");
    forall i | 0 <= i < |p| ensures Literal(p[i]) {
      if 4 <= i < 4 + |o| {
        assert p[i] == o[i - 4];
      }
    }
  }

  /** The pattern of an organization names exactly the keys of its project lists among all keys of the cache. */
  lemma PatternMatchesIff(o: string, k: Key)
    requires PlainId(o) && k.Valid()
    ensures Matches(ProjectsListPattern(o), k.Text()) <==> k.ProjectsListKey? && k.organizationId == o
  {
    var p := "org:" + (o + ":projects:");
    PatternIsPrefix(o);
    StarMatchesPrefix(p, k.Text());
    if p <= k.Text() {
      PrefixNamesList(o, k);
    }
    if k.ProjectsListKey? {
      ListTextBegins(k.organizationId, k.query);
    }
  }

  lemma ListTextBegins(o: string, q: Query)
    ensures "org:" + (o + ":projects:") <= ProjectsListKey(o, q).Text()
  {
    Associative(o, ":projects:", Json(q));
    Associative("org:", o + ":projects:", Json(q));
  }

  lemma RestOfPrefix(o: string, text: string) returns (rest: string)
    requires "org:" + (o + ":projects:") <= text
    ensures text == "org:" + (o + (":projects:" + rest)) && text[0] == 'o'
  {
    var p := "org:" + (o + ":projects:");
    rest := text[|p|..];
    assert text == p + rest;
    Associative("org:", o + ":projects:", rest);
    Associative(o, ":projects:", rest);
    assert text[0] == p[0];
  }

  lemma PrefixNamesList(o: string, k: Key)
    requires PlainId(o) && k.Valid()
    requires "org:" + (o + ":projects:") <= k.Text()
    ensures k.ProjectsListKey? && k.organizationId == o
  {
    var rest := RestOfPrefix(o, k.Text());
    FirstOfKey(k);
    var tail := ":projects:" + rest;
    assert tail[0] == ':' && tail[8] == 's';
    SameRest("org:", o + tail, k.organizationId + Tail(k));
    IdsEnd(o, tail, k.organizationId, Tail(k));
    KindOfTail(k);
  }
}
