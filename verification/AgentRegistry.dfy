/**
 The registry of remote A2A agents: one versioned catalogue, published by compare-and-swap on its
 encoded bytes, and one credential store. Credentials are created before the catalogue that names
 them is published and deleted after the catalogue that drops them is.
 */
module AgentRegistry {
  import opened Common

  const MAX_REVISION := 9007199254740991
  const MAX_AGENTS := 256
  const MAX_RETIRED := 4096

  /** Identifiers and credential names, of which the registry uses only equality and order. */
  type Name = int

  datatype Agent = Agent(id: Name, revision: nat, url: string, enabled: bool, credential: Option<Name>)

  /** The stored document. Its encoding is injective, so comparing bytes is comparing documents. */
  datatype Catalog = Catalog(revision: nat, agents: seq<Agent>, retired: seq<Name>)

  datatype Failure = Invalid | Unreadable | Conflict | NotFound | Exhausted

  // ------------------------------------------------------------ agent vectors

  /** Sorted by identifier, which also excludes duplicates. */
  predicate Sorted(agents: seq<Agent>) {
    forall i, j :: 0 <= i < j < |agents| ==> agents[i].id < agents[j].id
  }

  function Find(agents: seq<Agent>, id: Name): (r: Option<Agent>)
    ensures r.Some? ==> r.value in agents && r.value.id == id
    ensures r.None? ==> forall a :: a in agents ==> a.id != id
  {
    if agents == [] then None else if agents[0].id == id then Some(agents[0]) else Find(agents[1..], id)
  }

  /** The vector without one agent. */
  function Without(agents: seq<Agent>, id: Name): (r: seq<Agent>)
    ensures |r| <= |agents|
  {
    if agents == [] then []
    else if agents[0].id == id then Without(agents[1..], id)
    else [agents[0]] + Without(agents[1..], id)
  }

  /** The vector with one more agent, sorted again. */
  function Insert(agents: seq<Agent>, a: Agent): (r: seq<Agent>)
    ensures |r| == |agents| + 1
  {
    if agents == [] || a.id < agents[0].id then [a] + agents else [agents[0]] + Insert(agents[1..], a)
  }

  lemma {:induction false} WithoutMembers(agents: seq<Agent>, id: Name, x: Agent)
    ensures x in Without(agents, id) <==> x in agents && x.id != id
    decreases |agents|
  {
    if agents != [] {
      WithoutMembers(agents[1..], id, x);
      assert x in agents <==> x == agents[0] || x in agents[1..];
    }
  }

  lemma {:induction false} InsertMembers(agents: seq<Agent>, a: Agent, x: Agent)
    ensures x in Insert(agents, a) <==> x == a || x in agents
    decreases |agents|
  {
    if agents != [] {
      assert x in agents <==> x == agents[0] || x in agents[1..];
      if a.id >= agents[0].id {
        InsertMembers(agents[1..], a, x);
      }
    }
  }

  /** All identifiers of a sorted vector are above a bound when the first one is. */
  predicate Above(agents: seq<Agent>, bound: int) {
    forall i :: 0 <= i < |agents| ==> agents[i].id > bound
  }

  lemma SortedCons(a: Agent, agents: seq<Agent>)
    ensures Sorted([a] + agents) <==> Sorted(agents) && Above(agents, a.id)
  {
    var all := [a] + agents;
    assert forall i :: 0 <= i < |agents| ==> all[i + 1] == agents[i];
    assert all[0] == a;
    assert forall i :: 1 <= i < |all| ==> all[i] == agents[i - 1];
  }

  lemma {:induction false} WithoutSorted(agents: seq<Agent>, id: Name, bound: int)
    requires Sorted(agents)
    ensures Sorted(Without(agents, id)) && (Above(agents, bound) ==> Above(Without(agents, id), bound))
    decreases |agents|
  {
    if agents != [] {
      var rest := agents[1..];
      assert agents == [agents[0]] + rest;
      SortedCons(agents[0], rest);
      WithoutSorted(rest, id, bound);
      WithoutSorted(rest, id, agents[0].id);
      SortedCons(agents[0], Without(rest, id));
    }
  }

  lemma {:induction false} InsertSorted(agents: seq<Agent>, a: Agent, bound: int)
    requires Sorted(agents) && forall x :: x in agents ==> x.id != a.id
    ensures Sorted(Insert(agents, a)) && (Above(agents, bound) && a.id > bound ==> Above(Insert(agents, a), bound))
    decreases |agents|
  {
    if agents == [] || a.id < agents[0].id {
      SortedCons(a, agents);
    } else {
      var rest := agents[1..];
      assert agents == [agents[0]] + rest;
      assert agents[0] in agents;
      SortedCons(agents[0], rest);
      InsertSorted(rest, a, bound);
      InsertSorted(rest, a, agents[0].id);
      SortedCons(agents[0], Insert(rest, a));
    }
  }

  lemma SortedUnique(agents: seq<Agent>, x: Agent, y: Agent)
    requires Sorted(agents) && x in agents && y in agents && x.id == y.id
    ensures x == y
  {
    var i :| 0 <= i < |agents| && agents[i] == x;
    var j :| 0 <= j < |agents| && agents[j] == y;
  }

  // ------------------------------------------------------------------ catalogues

  predicate Uses(c: Catalog, credential: Name) {
    exists a :: a in c.agents && a.credential == Some(credential)
  }

  predicate Active(c: Catalog, id: Name) {
    exists a :: a in c.agents && a.id == id
  }

  predicate Distinct(names: seq<Name>) {
    forall i, j :: 0 <= i < j < |names| ==> names[i] != names[j]
  }

  /** What the decoder of a stored document insists on, apart from the two size limits. */
  predicate Decodable(c: Catalog) {
    && 1 <= c.revision <= MAX_REVISION && Distinct(c.retired)
    && (forall i, j :: 0 <= i < j < |c.agents| ==> c.agents[i].id != c.agents[j].id)
    && (forall a :: a in c.agents ==> a.id !in c.retired && 1 <= a.revision <= c.revision)
    && (forall a, b :: a in c.agents && b in c.agents && a.credential.Some? && a.credential == b.credential ==> a == b)
  }

  /** What every published document is. */
  predicate WellFormed(c: Catalog) {
    Decodable(c) && Sorted(c.agents)
  }

  /** The decoder's two size limits, which publication does not test. */
  predicate Readable(c: Catalog) {
    |c.agents| <= MAX_AGENTS && |c.retired| <= MAX_RETIRED
  }

  // ------------------------------------------------------------------ operations

  /** `bearer` holds the name drawn for a new credential. */
  datatype Op =
    | Register(id: Name, url: string, enabled: bool, expected: int, bearer: Option<Name>, clear: bool, wellFormed: bool)
    | Remove(id: Name, expected: int)

  /** A publication: the document read, the document to write, and the credential it drops. */
  datatype Plan = Plan(base: Option<Catalog>, next: Catalog, made: Option<Name>, drop: Option<Name>)

  datatype Decision = Refuse(failure: Failure) | Unchanged(agent: Agent) | Publish(plan: Plan)

  function Current(stored: Option<Catalog>): Catalog {
    if stored.Some? then stored.value else Catalog(0, [], [])
  }

  function NextCredential(held: Option<Name>, op: Op): Option<Name>
    requires op.Register?
  {
    if op.bearer.Some? then op.bearer else if op.clear then None else held
  }

  /** A request that is refused before anything is read. */
  predicate Malformed(op: Op) {
    match op
    case Register(_, _, _, expected, bearer, clear, wellFormed) =>
      !wellFormed || expected < 0 || expected == MAX_REVISION || (bearer.Some? && clear)
    case Remove(_, expected) => expected < 1
  }

  /** Everything an operation decides from the document it has read. */
  function Decide(stored: Option<Catalog>, op: Op): Decision {
    var c := Current(stored);
    if Malformed(op) then Refuse(Invalid)
    else if stored.Some? && !(Readable(c) && Decodable(c)) then Refuse(Unreadable)
    else
      var found := Find(c.agents, op.id);
      match op
      case Register(id, url, enabled, expected, bearer, clear, wellFormed) =>
        if (if found.Some? then found.value.revision else 0) != expected then Refuse(Conflict)
        else if found.None? && id in c.retired then Refuse(Conflict)
        else if found.Some? && found.value.url == url && found.value.enabled == enabled && bearer.None? && !clear then
          Unchanged(found.value)
        else
          var held := if found.Some? then found.value.credential else None;
          var credential := NextCredential(held, op);
          var a := Agent(id, if found.Some? then found.value.revision + 1 else 1, url, enabled, credential);
          Publish(Plan(stored, Catalog(c.revision + 1, Insert(Without(c.agents, id), a), c.retired), bearer,
                       if held != credential then held else None))
      case Remove(id, expected) =>
        if found.None? then Refuse(NotFound)
        else if found.value.revision != expected then Refuse(Conflict)
        else if |c.retired| >= MAX_RETIRED then Refuse(Exhausted)
        else Publish(Plan(stored, Catalog(c.revision + 1, Without(c.agents, id), c.retired + [id]), None,
                          found.value.credential))
  }

  /** The request can be read and so can the document. */
  predicate Legible(stored: Option<Catalog>, op: Op) {
    !Malformed(op) && (stored.Some? ==> Readable(stored.value) && Decodable(stored.value))
  }

  /** The caller has seen the agent as it is stored, or registers one that never was. */
  predicate Timely(c: Catalog, op: Op) {
    || (exists x :: x in c.agents && x.id == op.id && x.revision == op.expected)
    || (op.Register? && op.expected == 0 && !Active(c, op.id) && op.id !in c.retired)
  }

  /** The registration is there already, and no credential is to be set or cleared. */
  predicate Already(c: Catalog, op: Op) {
    && op.Register? && op.bearer.None? && !op.clear
    && exists x :: x in c.agents && x.id == op.id && x.url == op.url && x.enabled == op.enabled
  }

  lemma FindsOnly(agents: seq<Agent>, x: Agent)
    requires forall i, j :: 0 <= i < j < |agents| ==> agents[i].id != agents[j].id
    requires x in agents
    ensures Find(agents, x.id) == Some(x)
  {
    var y := Find(agents, x.id).value;
    var i :| 0 <= i < |agents| && agents[i] == x;
    var j :| 0 <= j < |agents| && agents[j] == y;
  }

  /** What `Find` finds in a readable document, in terms of its agents. */
  lemma FoundMeans(c: Catalog, op: Op)
    requires c.agents == [] || Decodable(c)
    ensures var found := Find(c.agents, op.id);
            && (found.Some? <==> Active(c, op.id))
            && (forall x :: x in c.agents && x.id == op.id ==> found == Some(x))
            && (found.Some? ==> found.value.revision >= 1)
  {
    forall x | x in c.agents && x.id == op.id ensures Find(c.agents, op.id) == Some(x) {
      FindsOnly(c.agents, x);
    }
  }

  /** When a decision refuses, and as what; when it changes nothing; when it publishes. */
  lemma DecisionMeans(stored: Option<Catalog>, op: Op)
    ensures var c, d := Current(stored), Decide(stored, op);
            && (d == Refuse(Invalid) <==> Malformed(op))
            && (d == Refuse(Unreadable) <==> !Malformed(op) && !Legible(stored, op))
            && (d == Refuse(NotFound) <==> Legible(stored, op) && op.Remove? && !Active(c, op.id))
            && (d == Refuse(Conflict) <==>
                  Legible(stored, op) && !Timely(c, op) && (op.Remove? ==> Active(c, op.id)))
            && (d == Refuse(Exhausted) <==>
                  Legible(stored, op) && Timely(c, op) && op.Remove? && |c.retired| >= MAX_RETIRED)
            && (d.Unchanged? <==> Legible(stored, op) && Timely(c, op) && Already(c, op))
            && (d.Publish? <==>
                  && Legible(stored, op) && Timely(c, op) && !Already(c, op)
                  && (op.Remove? ==> |c.retired| < MAX_RETIRED))
  {
    if Legible(stored, op) {
      FoundMeans(Current(stored), op);
    }
  }

  /** The agent a registration leaves, and where its credential comes from. */
  ghost predicate AsAsked(c: Catalog, op: Op, x: Agent)
    requires op.Register?
  {
    && x.id == op.id && x.url == op.url && x.enabled == op.enabled
    && (op.bearer.Some? ==> x.credential == op.bearer)
    && (op.clear ==> x.credential == None)
    && (op.bearer.None? && !op.clear ==>
          if Active(c, op.id) then exists o :: o in c.agents && o.id == op.id && o.credential == x.credential
          else x.credential == None)
  }

  lemma UnchangedMeans(stored: Option<Catalog>, op: Op)
    requires Decide(stored, op).Unchanged?
    ensures var a := Decide(stored, op).agent;
            op.Register? && a in Current(stored).agents && AsAsked(Current(stored), op, a) && a.revision == op.expected
  {
  }

  /** A registration publishes the agent that was asked for, on the next revision. */
  lemma PublishedMeans(stored: Option<Catalog>, op: Op)
    requires Decide(stored, op).Publish? && op.Register?
    ensures var c, n := Current(stored), Decide(stored, op).plan.next;
            exists x :: x in n.agents && x.revision == op.expected + 1 && AsAsked(c, op, x)
  {
    var c, found := Current(stored), Find(Current(stored).agents, op.id);
    var held := if found.Some? then found.value.credential else None;
    var a := Agent(op.id, if found.Some? then found.value.revision + 1 else 1, op.url, op.enabled,
                   NextCredential(held, op));
    RegisterMembers(c, a, a);
    FoundMeans(c, op);
    assert AsAsked(c, op, a);
  }

  predicate Known(c: Catalog, id: Name) {
    Active(c, id) || id in c.retired
  }

  /** Where an agent of the next document comes from: kept, revised, or new under an identifier never seen. */
  ghost predicate Descends(c: Catalog, x: Agent) {
    || x in c.agents
    || (exists o :: o in c.agents && o.id == x.id && x.revision == o.revision + 1)
    || (!Known(c, x.id) && x.revision == 1)
  }

  /** What holds between one stored document and the next. */
  ghost predicate Follows(c: Catalog, n: Catalog) {
    && n.revision == c.revision + 1
    && c.retired <= n.retired
    && (forall x :: x in n.agents ==> Descends(c, x))
    && (forall id :: Known(c, id) ==> Known(n, id))
  }

  /** The credentials two documents name, against the one made and the one dropped between them. */
  ghost predicate Accounts(c: Catalog, n: Catalog, made: Option<Name>, drop: Option<Name>) {
    && (forall k :: Uses(n, k) ==> Uses(c, k) || made == Some(k))
    && (forall k :: Uses(c, k) && !Uses(n, k) ==> drop == Some(k))
    && (drop.Some? ==> !Uses(n, drop.value) && Uses(c, drop.value))
    && (made.Some? ==> Uses(n, made.value))
  }

  lemma RegisterMembers(c: Catalog, a: Agent, x: Agent)
    ensures x in Insert(Without(c.agents, a.id), a) <==> x == a || (x in c.agents && x.id != a.id)
  {
    InsertMembers(Without(c.agents, a.id), a, x);
    WithoutMembers(c.agents, a.id, x);
  }

  lemma RemoveFollows(c: Catalog, id: Name, n: Catalog)
    requires n == Catalog(c.revision + 1, Without(c.agents, id), c.retired + [id])
    ensures Follows(c, n)
  {
    forall x ensures x in n.agents <==> x in c.agents && x.id != id {
      WithoutMembers(c.agents, id, x);
    }
    assert id in n.retired;
    forall k | Known(c, k) ensures Known(n, k) {
      if k in c.retired {
        assert k in n.retired;
      } else if k != id {
        var a :| a in c.agents && a.id == k;
        assert a in n.agents;
      }
    }
  }

  lemma RegisterKnows(c: Catalog, a: Agent, n: Catalog, k: Name)
    requires a in n.agents && n.retired == c.retired && forall x :: x in c.agents && x.id != a.id ==> x in n.agents
    ensures Known(c, k) ==> Known(n, k)
  {
    if k !in c.retired && k != a.id && Known(c, k) {
      var o :| o in c.agents && o.id == k;
      assert o in n.agents;
    }
  }

  lemma RegisterFollows(c: Catalog, a: Agent, n: Catalog)
    requires n == Catalog(c.revision + 1, Insert(Without(c.agents, a.id), a), c.retired)
    requires Descends(c, a)
    ensures Follows(c, n)
  {
    forall x ensures x in n.agents <==> x == a || (x in c.agents && x.id != a.id) {
      RegisterMembers(c, a, x);
    }
    forall k ensures Known(c, k) ==> Known(n, k) {
      RegisterKnows(c, a, n, k);
    }
  }

  lemma RemoveAccounts(c: Catalog, o: Agent, n: Catalog)
    requires WellFormed(c) && o in c.agents && n.agents == Without(c.agents, o.id)
    ensures Accounts(c, n, None, o.credential)
  {
    forall x ensures x in n.agents <==> x in c.agents && x.id != o.id {
      WithoutMembers(c.agents, o.id, x);
    }
    forall k | Uses(c, k) && !Uses(n, k) ensures o.credential == Some(k) {
      var x :| x in c.agents && x.credential == Some(k);
      SortedUniqueOrOther(c, o, x, n);
    }
  }

  lemma SortedUniqueOrOther(c: Catalog, o: Agent, x: Agent, n: Catalog)
    requires Sorted(c.agents) && o in c.agents && x in c.agents
    requires forall y :: y in c.agents && y.id != o.id ==> y in n.agents
    ensures x == o || x in n.agents
  {
    if x.id == o.id {
      SortedUnique(c.agents, x, o);
    }
  }

  /** The credential an update drops, and the one its new entry names. */
  lemma RegisterAccounts(c: Catalog, a: Agent, n: Catalog, found: Option<Agent>, made: Option<Name>)
    requires WellFormed(c) && n.agents == Insert(Without(c.agents, a.id), a)
    requires found == Find(c.agents, a.id)
    requires made.Some? ==> a.credential == made && !Uses(c, made.value)
    requires made.None? && a.credential.Some? ==> found.Some? && found.value.credential == a.credential
    ensures Accounts(c, n, made,
                     if found.Some? && found.value.credential != a.credential then found.value.credential else None)
  {
    forall x ensures x in n.agents <==> x == a || (x in c.agents && x.id != a.id) {
      RegisterMembers(c, a, x);
    }
    var drop := if found.Some? && found.value.credential != a.credential then found.value.credential else None;
    assert a in n.agents;
    forall k | Uses(c, k) && !Uses(n, k) ensures drop == Some(k) {
      var x :| x in c.agents && x.credential == Some(k);
      if found.Some? {
        SortedUniqueOrOther(c, found.value, x, n);
      }
    }
  }

  lemma RemoveWellFormed(c: Catalog, o: Agent, n: Catalog)
    requires WellFormed(c) && o in c.agents && c.revision < MAX_REVISION
    requires n == Catalog(c.revision + 1, Without(c.agents, o.id), c.retired + [o.id])
    ensures WellFormed(n)
  {
    forall x ensures x in n.agents <==> x in c.agents && x.id != o.id {
      WithoutMembers(c.agents, o.id, x);
    }
    WithoutSorted(c.agents, o.id, 0);
  }

  /** The vector after a registration: sorted, and changed at one identifier only. */
  lemma RegisterShape(c: Catalog, a: Agent, n: seq<Agent>)
    requires Sorted(c.agents) && n == Insert(Without(c.agents, a.id), a)
    ensures Sorted(n) && forall x :: x in n <==> x == a || (x in c.agents && x.id != a.id)
  {
    forall x ensures x in n <==> x == a || (x in c.agents && x.id != a.id) {
      RegisterMembers(c, a, x);
    }
    WithoutSorted(c.agents, a.id, 0);
    forall x ensures x in Without(c.agents, a.id) ==> x.id != a.id {
      WithoutMembers(c.agents, a.id, x);
    }
    InsertSorted(Without(c.agents, a.id), a, 0);
  }

  /** No two agents share a credential after it, since a new one is unused and an old one the agent's own. */
  lemma RegisterCredentials(c: Catalog, a: Agent, n: seq<Agent>, found: Option<Agent>, made: Option<Name>)
    requires c == Catalog(0, [], []) || WellFormed(c)
    requires forall x :: x in n <==> x == a || (x in c.agents && x.id != a.id)
    requires found == Find(c.agents, a.id)
    requires made.Some? ==> a.credential == made && !Uses(c, made.value)
    requires made.None? && a.credential.Some? ==> found.Some? && found.value.credential == a.credential
    ensures forall x, y :: x in n && y in n && x.credential.Some? && x.credential == y.credential ==> x == y
  {
    forall x | x in c.agents && x.id != a.id && x.credential.Some? ensures x.credential != a.credential {
      if made.None? && a.credential.Some? {
        assert found.value in c.agents && found.value.id == a.id;
      }
    }
  }

  lemma RegisterWellFormed(c: Catalog, a: Agent, n: Catalog, found: Option<Agent>, made: Option<Name>)
    requires c == Catalog(0, [], []) || WellFormed(c)
    requires c.revision < MAX_REVISION
    requires n == Catalog(c.revision + 1, Insert(Without(c.agents, a.id), a), c.retired)
    requires found == Find(c.agents, a.id) && a.id !in c.retired && 1 <= a.revision <= c.revision + 1
    requires made.Some? ==> a.credential == made && !Uses(c, made.value)
    requires made.None? && a.credential.Some? ==> found.Some? && found.value.credential == a.credential
    ensures WellFormed(n)
  {
    RegisterShape(c, a, n.agents);
    RegisterCredentials(c, a, n.agents, found, made);
    SortedDistinct(n.agents);
  }

  lemma SortedDistinct(agents: seq<Agent>)
    requires Sorted(agents)
    ensures forall i, j :: 0 <= i < j < |agents| ==> agents[i].id != agents[j].id
  {
  }

  /** Whatever document an operation was decided on, its plan is a sound successor of it. */
  ghost predicate Sound(p: Plan) {
    var c := Current(p.base);
    && (p.base.Some? ==> Readable(c))
    && Follows(c, p.next)
    && Accounts(c, p.next, p.made, p.drop)
    && (p.next.revision <= MAX_REVISION ==> WellFormed(p.next))
  }

  lemma PlansAreSound(stored: Option<Catalog>, op: Op)
    requires stored.Some? ==> WellFormed(stored.value)
    requires op.Register? && op.bearer.Some? ==> !Uses(Current(stored), op.bearer.value)
    requires Decide(stored, op).Publish?
    ensures Sound(Decide(stored, op).plan)
  {
    var c, p := Current(stored), Decide(stored, op).plan;
    var found := Find(c.agents, op.id);
    if op.Remove? {
      RemoveFollows(c, op.id, p.next);
      RemoveAccounts(c, found.value, p.next);
      if c.revision < MAX_REVISION {
        RemoveWellFormed(c, found.value, p.next);
      }
    } else {
      var held := if found.Some? then found.value.credential else None;
      var a := Agent(op.id, if found.Some? then found.value.revision + 1 else 1, op.url, op.enabled,
                     NextCredential(held, op));
      RegisterFollows(c, a, p.next);
      RegisterSound(stored, a, found, op, p);
    }
  }

  lemma RegisterSound(stored: Option<Catalog>, a: Agent, found: Option<Agent>, op: Op, p: Plan)
    requires stored.Some? ==> WellFormed(stored.value)
    requires op.Register? && (op.bearer.Some? ==> !Uses(Current(stored), op.bearer.value))
    requires Decide(stored, op) == Publish(p) && found == Find(Current(stored).agents, op.id)
    requires a == Agent(op.id, if found.Some? then found.value.revision + 1 else 1, op.url, op.enabled,
                        NextCredential(if found.Some? then found.value.credential else None, op))
    ensures Accounts(Current(stored), p.next, p.made, p.drop)
    ensures p.next.revision <= MAX_REVISION ==> WellFormed(p.next)
  {
    var c := Current(stored);
    if stored.Some? {
      RegisterAccounts(c, a, p.next, found, op.bearer);
    } else {
      assert p.next.agents == [a];
      assert a in p.next.agents;
    }
    if c.revision < MAX_REVISION {
      RegisterWellFormed(c, a, p.next, found, op.bearer);
    }
  }

  /** What a publication writes: exactly one entry revised, added or removed, on the revision the caller saw. */
  lemma PublishedContents(stored: Option<Catalog>, op: Op)
    requires stored.Some? ==> WellFormed(stored.value)
    requires Decide(stored, op).Publish?
    ensures var c, n := Current(stored), Decide(stored, op).plan.next;
            && (forall x: Agent :: x.id != op.id ==> (x in n.agents <==> x in c.agents))
            && (if Active(c, op.id) then exists o :: o in c.agents && o.id == op.id && o.revision == op.expected
                else op.Register? && op.expected == 0 && op.id !in c.retired)
            && (op.Remove? ==> Active(c, op.id) && !Active(n, op.id) && n.retired == c.retired + [op.id])
            && (op.Register? ==> && n.retired == c.retired
                                 && (forall x :: x in n.agents && x.id == op.id ==>
                                       x.revision == op.expected + 1 && x.url == op.url && x.enabled == op.enabled)
                                 && Active(n, op.id))
  {
    var c, p := Current(stored), Decide(stored, op).plan;
    var found := Find(c.agents, op.id);
    if op.Remove? {
      forall x ensures x in p.next.agents <==> x in c.agents && x.id != op.id {
        WithoutMembers(c.agents, op.id, x);
      }
    } else {
      var held := if found.Some? then found.value.credential else None;
      var a := Agent(op.id, if found.Some? then found.value.revision + 1 else 1, op.url, op.enabled,
                     NextCredential(held, op));
      forall x ensures x in p.next.agents <==> x == a || (x in c.agents && x.id != op.id) {
        RegisterMembers(c, a, x);
      }
      assert a in p.next.agents;
    }
  }

  // ------------------------------------------------------------------------ limits

  lemma {:induction false} WithoutCount(agents: seq<Agent>, id: Name)
    requires Sorted(agents)
    ensures |Without(agents, id)| == |agents| - (if Find(agents, id).Some? then 1 else 0)
    decreases |agents|
  {
    if agents != [] {
      var rest := agents[1..];
      assert agents == [agents[0]] + rest;
      SortedCons(agents[0], rest);
      WithoutCount(rest, id);
    }
  }

  /**
   The decoder refuses more than 256 agents and the encoder does not: what an operation publishes can
   be read back exactly when it adds no agent to a full catalogue.
   */
  lemma PublishedIsReadable(stored: Option<Catalog>, op: Op)
    requires stored.Some? ==> WellFormed(stored.value)
    requires Decide(stored, op).Publish?
    ensures Readable(Decide(stored, op).plan.next)
        <==> op.Remove? || Active(Current(stored), op.id) || |Current(stored).agents| < MAX_AGENTS
  {
    var c := Current(stored);
    WithoutCount(c.agents, op.id);
  }

  // ------------------------------------------------------------------ competing clients

  /**
   What one client is in the middle of: `set_enabled` between its two critical sections, a planned
   publication whose credential may have been created, or a credential still to be deleted.
   */
  datatype Phase =
    | Idle
    | Toggling(id: Name, url: string, on: bool, expected: int)
    | Planned(plan: Plan, created: bool)
    | Dropping(credential: Name)

  /**
   `log` holds every catalogue ever stored, the stored one last; `vault` the credential store;
   `drawn` every credential name ever drawn, so that a new draw is unused.
   */
  datatype System = System(log: seq<Catalog>, vault: set<Name>, drawn: set<Name>, clients: seq<Phase>)

  datatype Step =
    | Start(client: nat, op: Op)
    | StartToggle(client: nat, id: Name, on: bool, expected: int)
    | FinishToggle(client: nat)
    | Create(client: nat)
    | Compare(client: nat)
    | LostCompare(client: nat)
    | Delete(client: nat)
    | Crash(client: nat)

  function Stored(log: seq<Catalog>): Option<Catalog> {
    if log == [] then None else Some(log[|log| - 1])
  }

  function Begin(s: System, k: nat, op: Op): System
    requires k < |s.clients|
  {
    match Decide(Stored(s.log), op)
    case Refuse(_) => s.(clients := s.clients[k := Idle])
    case Unchanged(_) => s.(clients := s.clients[k := Idle])
    case Publish(p) =>
      s.(clients := s.clients[k := Planned(p, false)],
         drawn := if p.made.Some? then s.drawn + {p.made.value} else s.drawn)
  }

  function After(credential: Option<Name>): Phase {
    if credential.Some? then Dropping(credential.value) else Idle
  }

  predicate Publishes(s: System, p: Plan) {
    p.next.revision <= MAX_REVISION && Stored(s.log) == p.base
  }

  /** The comparison succeeds on an unchanged document only; a failure undoes the created credential. */
  function Swap(s: System, k: nat, p: Plan): System
    requires k < |s.clients|
  {
    if Publishes(s, p) then
      s.(log := s.log + [p.next], clients := s.clients[k := After(p.drop)])
    else
      s.(clients := s.clients[k := After(p.made)])
  }

  /** The comparison succeeds, its acknowledgement is lost, and the client cleans up as after a failure. */
  function LostSwap(s: System, k: nat, p: Plan): System
    requires k < |s.clients|
  {
    if Publishes(s, p) then s.(log := s.log + [p.next], clients := s.clients[k := After(p.made)]) else Swap(s, k, p)
  }

  function Next(s: System, step: Step): System {
    if step.client >= |s.clients| then s
    else
      var k := step.client;
      var phase := s.clients[k];
      match step
      case Start(_, op) =>
        if phase == Idle && !(op.Register? && op.bearer.Some? && op.bearer.value in s.drawn) then Begin(s, k, op) else s
      case StartToggle(_, id, on, expected) =>
        var stored := Stored(s.log);
        var found := Find(Current(stored).agents, id);
        if phase == Idle && (stored.Some? ==> Readable(stored.value) && Decodable(stored.value)) && found.Some?
          && found.value.revision == expected && found.value.enabled != on
        then s.(clients := s.clients[k := Toggling(id, found.value.url, on, expected)]) else s
      case FinishToggle(_) =>
        if phase.Toggling? then Begin(s, k, ToggleOp(phase)) else s
      case Create(_) =>
        if phase.Planned? && !phase.created && phase.plan.made.Some?
        then s.(vault := s.vault + {phase.plan.made.value}, clients := s.clients[k := Planned(phase.plan, true)]) else s
      case Compare(_) =>
        if Comparing(phase) then Swap(s, k, phase.plan) else s
      case LostCompare(_) =>
        if Comparing(phase) then LostSwap(s, k, phase.plan) else s
      case Delete(_) =>
        if phase.Dropping? then s.(vault := s.vault - {phase.credential}, clients := s.clients[k := Idle]) else s
      case Crash(_) => s.(clients := s.clients[k := Idle])
  }

  predicate Comparing(phase: Phase) {
    phase.Planned? && (phase.plan.made.Some? ==> phase.created)
  }

  function ToggleOp(phase: Phase): Op
    requires phase.Toggling?
  {
    Register(phase.id, phase.url, phase.on, phase.expected, None, false, true)
  }

  function Run(s: System, steps: seq<Step>): System
    decreases |steps|
  {
    if steps == [] then s else Run(Next(s, steps[0]), steps[1..])
  }

  /** The credential a client will name or delete. */
  function Holds(phase: Phase): Option<Name> {
    match phase
    case Planned(p, _) => p.made
    case Dropping(c) => Some(c)
    case _ => None
  }

  ghost predicate Chain(log: seq<Catalog>) {
    && (forall i :: 0 <= i < |log| ==> log[i].revision == i + 1 && WellFormed(log[i]))
    && (forall i :: 0 < i < |log| ==> Follows(log[i - 1], log[i]))
  }

  /** Every credential the stored catalogue names exists, but for those whose acknowledgement was lost. */
  ghost predicate Secured(s: System, lost: set<Name>) {
    && s.vault <= s.drawn && lost <= s.drawn
    && (forall k :: Uses(Current(Stored(s.log)), k) ==> k in s.vault || k in lost)
  }

  ghost predicate PhaseSound(s: System, phase: Phase, lost: set<Name>) {
    && (phase.Planned? ==> Sound(phase.plan) && (phase.plan.made.Some? ==> phase.plan.made.value !in lost))
    && (phase.Planned? && phase.created ==> phase.plan.made.Some? && phase.plan.made.value in s.vault)
    && (Holds(phase).Some? ==>
          && Holds(phase).value in s.drawn
          && (Holds(phase).value in lost || !Uses(Current(Stored(s.log)), Holds(phase).value)))
  }

  ghost predicate Apart(s: System, lost: set<Name>) {
    forall i, j ::
      0 <= i < j < |s.clients| && Holds(s.clients[i]).Some? && Holds(s.clients[i]).value !in lost ==>
        Holds(s.clients[i]) != Holds(s.clients[j])
  }

  /** `lost` are the new credentials published by a comparison whose acknowledgement was lost. */
  ghost predicate Invariant(s: System, lost: set<Name>) {
    && Chain(s.log) && Secured(s, lost) && Apart(s, lost)
    && forall i :: 0 <= i < |s.clients| ==> PhaseSound(s, s.clients[i], lost)
  }

  lemma StoredWell(log: seq<Catalog>)
    requires Chain(log)
    ensures Stored(log).Some? ==> WellFormed(Stored(log).value)
    ensures Current(Stored(log)).revision == |log|
  {
  }

  /** A step that changes one client only, to a phase that holds nothing new. */
  lemma OneClient(s: System, lost: set<Name>, k: nat, phase: Phase, n: System)
    requires Invariant(s, lost) && k < |s.clients| && n == s.(clients := s.clients[k := phase])
    requires PhaseSound(s, phase, lost) && (Holds(phase).Some? ==> Holds(phase) == Holds(s.clients[k]))
    ensures Invariant(n, lost)
  {
    forall i | 0 <= i < |n.clients| ensures PhaseSound(n, n.clients[i], lost) {
      assert PhaseSound(s, s.clients[i], lost);
    }
  }

  /** A client that plans with a credential name nobody holds. */
  lemma PlanAdded(s: System, lost: set<Name>, k: nat, p: Plan, n: System)
    requires Invariant(s, lost) && k < |s.clients| && Sound(p)
    requires n.clients == s.clients[k := Planned(p, false)] && n.log == s.log && n.vault == s.vault
    requires n.drawn == if p.made.Some? then s.drawn + {p.made.value} else s.drawn
    requires p.made.Some? ==> p.made.value !in s.drawn
    ensures Invariant(n, lost)
  {
    forall i | 0 <= i < |s.clients|
      ensures PhaseSound(s, s.clients[i], lost) && (p.made.Some? ==> Holds(s.clients[i]) != p.made)
    {
      assert PhaseSound(s, s.clients[i], lost);
    }
    forall i | 0 <= i < |n.clients| ensures PhaseSound(n, n.clients[i], lost) {
      if i != k {
        assert n.clients[i] == s.clients[i];
      }
    }
  }

  lemma BeginKeeps(s: System, lost: set<Name>, k: nat, op: Op)
    requires Invariant(s, lost) && k < |s.clients| && Holds(s.clients[k]).None?
    requires !(op.Register? && op.bearer.Some? && op.bearer.value in s.drawn)
    ensures Invariant(Begin(s, k, op), lost)
  {
    var n := Begin(s, k, op);
    StoredWell(s.log);
    if Decide(Stored(s.log), op).Publish? {
      PlansAreSound(Stored(s.log), op);
      PlanAdded(s, lost, k, Decide(Stored(s.log), op).plan, n);
    } else {
      OneClient(s, lost, k, Idle, n);
    }
  }

  lemma ChainGrows(log: seq<Catalog>, p: Plan)
    requires Chain(log) && Sound(p) && p.base == Stored(log) && p.next.revision <= MAX_REVISION
    ensures Chain(log + [p.next])
  {
    StoredWell(log);
    var n := log + [p.next];
    forall i | 0 < i < |n| ensures Follows(n[i - 1], n[i]) {
      if i < |log| {
        assert n[i - 1] == log[i - 1] && n[i] == log[i];
      } else {
        assert n[i - 1] == Current(p.base);
      }
    }
  }

  /** A publication leaves every client sound: what it names was held by the publisher alone. */
  lemma PublishedPhases(s: System, lost: set<Name>, k: nat, p: Plan, n: System, i: nat)
    requires Invariant(s, lost) && k < |s.clients| && i < |s.clients| && Holds(s.clients[k]) == p.made && Sound(p)
    requires p.base == Stored(s.log) && n == s.(log := s.log + [p.next], clients := s.clients[k := After(p.drop)])
    ensures PhaseSound(n, n.clients[i], lost)
    ensures p.drop.Some? && p.drop.value !in lost ==> Holds(s.clients[i]) != p.drop
  {
    assert PhaseSound(s, s.clients[i], lost);
    assert Stored(n.log) == Some(p.next);
    if p.drop.Some? {
      assert Uses(Current(Stored(s.log)), p.drop.value);
    }
  }

  lemma SwapKeeps(s: System, lost: set<Name>, k: nat, p: Plan, created: bool)
    requires Invariant(s, lost) && k < |s.clients| && s.clients[k] == Planned(p, created) && (p.made.Some? ==> created)
    ensures Invariant(Swap(s, k, p), lost)
  {
    var n := Swap(s, k, p);
    assert PhaseSound(s, s.clients[k], lost);
    if Publishes(s, p) {
      ChainGrows(s.log, p);
      assert Stored(n.log) == Some(p.next);
      forall i | 0 <= i < |n.clients|
        ensures PhaseSound(n, n.clients[i], lost)
        ensures p.drop.Some? && p.drop.value !in lost ==> Holds(s.clients[i]) != p.drop
      {
        PublishedPhases(s, lost, k, p, n, i);
      }
    } else {
      OneClient(s, lost, k, After(p.made), n);
    }
  }

  /** Creating a credential puts what the client holds into the vault. */
  lemma CreateKeeps(s: System, lost: set<Name>, k: nat)
    requires Invariant(s, lost)
    ensures Invariant(Next(s, Create(k)), lost)
  {
    var n := Next(s, Create(k));
    if n != s {
      assert PhaseSound(s, s.clients[k], lost);
      forall i | 0 <= i < |n.clients| ensures PhaseSound(n, n.clients[i], lost) {
        assert PhaseSound(s, s.clients[i], lost);
      }
    }
  }

  /** Deleting one takes away what no catalogue names and no other client holds. */
  lemma DeleteKeeps(s: System, lost: set<Name>, k: nat)
    requires Invariant(s, lost)
    ensures Invariant(Next(s, Delete(k)), lost)
  {
    var n := Next(s, Delete(k));
    if n != s {
      assert PhaseSound(s, s.clients[k], lost);
      forall i | 0 <= i < |n.clients| ensures PhaseSound(n, n.clients[i], lost) {
        assert PhaseSound(s, s.clients[i], lost);
      }
    }
  }

  /** A lost acknowledgement of a publication that names a new credential. */
  predicate LosesCredential(s: System, step: Step) {
    && step.LostCompare? && step.client < |s.clients| && Comparing(s.clients[step.client])
    && s.clients[step.client].plan.made.Some? && Publishes(s, s.clients[step.client].plan)
  }

  /** The new credential it names. */
  function LostBy(s: System, step: Step): set<Name> {
    if LosesCredential(s, step) then {s.clients[step.client].plan.made.value} else {}
  }

  lemma LostSwapKeeps(s: System, lost: set<Name>, k: nat, p: Plan, created: bool)
    requires Invariant(s, lost) && k < |s.clients| && s.clients[k] == Planned(p, created) && (p.made.Some? ==> created)
    ensures Invariant(LostSwap(s, k, p), lost + (if Publishes(s, p) && p.made.Some? then {p.made.value} else {}))
  {
    var n := LostSwap(s, k, p);
    assert PhaseSound(s, s.clients[k], lost);
    if Publishes(s, p) {
      var now := lost + if p.made.Some? then {p.made.value} else {};
      ChainGrows(s.log, p);
      assert Stored(n.log) == Some(p.next);
      forall i | 0 <= i < |n.clients| ensures PhaseSound(n, n.clients[i], now) {
        assert PhaseSound(s, s.clients[i], lost);
      }
    } else {
      assert lost + {} == lost;
      SwapKeeps(s, lost, k, p, created);
    }
  }

  /** The steps that end with an operation decided on, or with nothing. */
  lemma DecisionKeeps(s: System, lost: set<Name>, step: Step)
    requires Invariant(s, lost) && (step.Start? || step.StartToggle? || step.FinishToggle? || step.Crash?)
    ensures Invariant(Next(s, step), lost)
  {
    if step.client < |s.clients| {
      var k := step.client;
      assert PhaseSound(s, s.clients[k], lost);
      if step.Start? {
        var op := step.op;
        if s.clients[k] == Idle && !(op.Register? && op.bearer.Some? && op.bearer.value in s.drawn) {
          BeginKeeps(s, lost, k, op);
        }
      } else if step.FinishToggle? {
        if s.clients[k].Toggling? {
          BeginKeeps(s, lost, k, ToggleOp(s.clients[k]));
        }
      } else {
        var n := Next(s, step);
        if n != s {
          OneClient(s, lost, k, n.clients[k], n);
        }
      }
    }
  }

  lemma ComparisonKeeps(s: System, lost: set<Name>, step: Step)
    requires Invariant(s, lost) && (step.Compare? || step.LostCompare?)
    ensures Invariant(Next(s, step), lost + LostBy(s, step))
  {
    assert lost + {} == lost;
    if step.client < |s.clients| && Comparing(s.clients[step.client]) {
      var k, p, created := step.client, s.clients[step.client].plan, s.clients[step.client].created;
      if step.Compare? {
        SwapKeeps(s, lost, k, p, created);
      } else {
        LostSwapKeeps(s, lost, k, p, created);
      }
    }
  }

  lemma StepKeeps(s: System, lost: set<Name>, step: Step)
    requires Invariant(s, lost)
    ensures Invariant(Next(s, step), lost + LostBy(s, step))
  {
    assert lost + {} == lost;
    if step.Compare? || step.LostCompare? {
      ComparisonKeeps(s, lost, step);
    } else if step.Create? {
      CreateKeeps(s, lost, step.client);
    } else if step.Delete? {
      DeleteKeeps(s, lost, step.client);
    } else {
      DecisionKeeps(s, lost, step);
    }
  }

  ghost predicate Initial(s: System) {
    s.log == [] && s.vault <= s.drawn && forall i :: 0 <= i < |s.clients| ==> s.clients[i] == Idle
  }

  /** The new credentials whose publication a run does not acknowledge. */
  function Lost(s: System, steps: seq<Step>): set<Name>
    decreases |steps|
  {
    if steps == [] then {} else LostBy(s, steps[0]) + Lost(Next(s, steps[0]), steps[1..])
  }

  lemma {:induction false} InvariantAlways(s: System, lost: set<Name>, steps: seq<Step>)
    requires Invariant(s, lost)
    ensures Invariant(Run(s, steps), lost + Lost(s, steps))
    decreases |steps|
  {
    if steps == [] {
      assert lost + {} == lost;
    } else {
      StepKeeps(s, lost, steps[0]);
      InvariantAlways(Next(s, steps[0]), lost + LostBy(s, steps[0]), steps[1..]);
      assert lost + LostBy(s, steps[0]) + Lost(Next(s, steps[0]), steps[1..]) == lost + Lost(s, steps);
    }
  }

  lemma FromTheStart(s: System, steps: seq<Step>)
    requires Initial(s)
    ensures Invariant(Run(s, steps), Lost(s, steps))
  {
    assert Invariant(s, {});
    InvariantAlways(s, {}, steps);
    assert {} + Lost(s, steps) == Lost(s, steps);
  }

  /** An operation that nothing comes between is published, with its credential created and the old one deleted. */
  lemma OperationGoesThrough(s: System, k: nat, op: Op)
    requires k < |s.clients| && s.clients[k] == Idle && Decide(Stored(s.log), op).Publish?
    requires op.Register? && op.bearer.Some? ==> op.bearer.value !in s.drawn
    requires Decide(Stored(s.log), op).plan.next.revision <= MAX_REVISION
    ensures var p := Decide(Stored(s.log), op).plan;
            var e := Next(Next(Next(Next(s, Start(k, op)), Create(k)), Compare(k)), Delete(k));
            && e.log == s.log + [p.next] && e.clients[k] == Idle
            && e.vault == s.vault + (if p.made.Some? then {p.made.value} else {})
                                  - (if p.drop.Some? then {p.drop.value} else {})
  {
    var p := Decide(Stored(s.log), op).plan;
    var a := Next(s, Start(k, op));
    assert a.clients[k] == Planned(p, false) && a.log == s.log && a.vault == s.vault;
    var b := Next(a, Create(k));
    assert Comparing(b.clients[k]) && b.clients[k].plan == p && b.log == s.log;
    var c := Next(b, Compare(k));
    assert c.log == s.log + [p.next] && c.clients[k] == After(p.drop) && c.vault == b.vault;
  }

  // ------------------------------------------------------------------ whole histories

  /**
   From catalogue `i` on, an agent is retired, or active with a revision that is larger unless it is
   the same agent.
   */
  ghost predicate Persists(x: Agent, c: Catalog) {
    && Known(c, x.id)
    && forall y :: y in c.agents && y.id == x.id ==> y.revision >= x.revision && (y.revision == x.revision ==> y == x)
  }

  lemma PersistsStep(x: Agent, c: Catalog, n: Catalog)
    requires Persists(x, c) && Follows(c, n)
    ensures Persists(x, n)
  {
    forall y | y in n.agents && y.id == x.id
      ensures y.revision >= x.revision && (y.revision == x.revision ==> y == x)
    {
      assert Descends(c, y);
    }
  }

  lemma {:induction false} AgentPersists(log: seq<Catalog>, i: nat, j: nat, x: Agent)
    requires Chain(log) && i <= j < |log| && x in log[i].agents
    ensures Persists(x, log[j])
    decreases j
  {
    if i == j {
      forall y | y in log[i].agents && y.id == x.id ensures y == x {
        SortedUnique(log[i].agents, x, y);
      }
    } else {
      AgentPersists(log, i, j - 1, x);
      assert Follows(log[j - 1], log[j]);
      PersistsStep(x, log[j - 1], log[j]);
    }
  }

  /** An identifier and a revision denote one registration for ever. */
  lemma OneRegistration(log: seq<Catalog>, i: nat, j: nat, x: Agent, y: Agent)
    requires Chain(log) && i < |log| && j < |log| && x in log[i].agents && y in log[j].agents
    requires x.id == y.id && x.revision == y.revision
    ensures x == y
  {
    if i <= j {
      AgentPersists(log, i, j, x);
    } else {
      AgentPersists(log, j, i, y);
    }
  }

  /** A retired identifier stays retired and is never active again. */
  lemma {:induction false} RetiredForEver(log: seq<Catalog>, i: nat, j: nat, id: Name)
    requires Chain(log) && i <= j < |log| && id in log[i].retired
    ensures id in log[j].retired && !Active(log[j], id)
    decreases j
  {
    if i < j {
      RetiredForEver(log, i, j - 1, id);
      assert Follows(log[j - 1], log[j]);
      assert id in log[j].retired;
    }
    assert WellFormed(log[j]);
  }

  /**
   In every run of competing registrations, toggles and removals, with any comparison failing, any
   client stopping anywhere and any acknowledgement lost. A credential that the stored catalogue
   names and that does not exist is a new one whose publication was not acknowledged.
   */
  lemma EveryRun(s: System, steps: seq<Step>)
    requires Initial(s)
    ensures var e := Run(s, steps);
            && (forall c :: c in e.log ==> WellFormed(c))
            && (forall k :: Uses(Current(Stored(e.log)), k) ==> k in e.vault || k in Lost(s, steps))
            && (forall i, j :: 0 <= i < j < |e.log| ==> e.log[i] != e.log[j])
            && (forall i, j, x, y ::
                  (0 <= i < |e.log| && 0 <= j < |e.log| && x in e.log[i].agents && y in e.log[j].agents
                   && x.id == y.id && x.revision == y.revision) ==> x == y)
            && (forall i, j, id :: 0 <= i <= j < |e.log| && id in e.log[i].retired ==> !Active(e.log[j], id))
  {
    FromTheStart(s, steps);
    ChainLasts(Run(s, steps).log);
  }

  lemma ChainLasts(log: seq<Catalog>)
    requires Chain(log)
    ensures forall i, j, x, y ::
              (0 <= i < |log| && 0 <= j < |log| && x in log[i].agents && y in log[j].agents
               && x.id == y.id && x.revision == y.revision) ==> x == y
    ensures forall i, j, id :: 0 <= i <= j < |log| && id in log[i].retired ==> !Active(log[j], id)
  {
    forall i, j, x, y | 0 <= i < |log| && 0 <= j < |log| && x in log[i].agents && y in log[j].agents
                        && x.id == y.id && x.revision == y.revision
      ensures x == y
    {
      OneRegistration(log, i, j, x, y);
    }
    forall i, j, id | 0 <= i <= j < |log| && id in log[i].retired ensures !Active(log[j], id) {
      RetiredForEver(log, i, j, id);
    }
  }

  /**
   Where a published comparison is reported as failed, the client deletes the credential it has just
   published: every named credential still exists exactly when the operation carried no new one.
   */
  lemma LostAcknowledgement(s: System, lost: set<Name>, k: nat)
    requires Invariant(s, lost) && k < |s.clients| && Comparing(s.clients[k]) && Publishes(s, s.clients[k].plan)
    ensures Secured(Next(Next(s, LostCompare(k)), Delete(k)), lost) <==> s.clients[k].plan.made.None?
  {
    var p := s.clients[k].plan;
    assert PhaseSound(s, s.clients[k], lost);
    var after := Next(s, LostCompare(k));
    assert Stored(after.log) == Some(p.next);
    if p.made.Some? {
      assert after.clients[k] == Dropping(p.made.value);
      assert Uses(p.next, p.made.value);
    } else {
      assert lost + {} == lost;
      StepKeeps(s, lost, LostCompare(k));
      DeleteKeeps(after, lost, k);
    }
  }

  // ------------------------------------------------------------------------- toggling

  /** The address a toggling client carries is that of the registration it saw. */
  ghost predicate Seen(log: seq<Catalog>, phase: Phase) {
    phase.Toggling? ==>
      exists i, x :: 0 <= i < |log| && x in log[i].agents && x.id == phase.id && x.revision == phase.expected
        && x.url == phase.url
  }

  ghost predicate AllSeen(s: System) {
    forall k :: 0 <= k < |s.clients| ==> Seen(s.log, s.clients[k])
  }

  lemma LogGrows(s: System, step: Step)
    ensures s.log <= Next(s, step).log
  {
  }

  lemma SeenLater(log: seq<Catalog>, later: seq<Catalog>, phase: Phase)
    requires log <= later && Seen(log, phase)
    ensures Seen(later, phase)
  {
    if phase.Toggling? {
      var i, x :| 0 <= i < |log| && x in log[i].agents && x.id == phase.id && x.revision == phase.expected
        && x.url == phase.url;
      assert later[i] == log[i];
    }
  }

  lemma ToggleSees(s: System, k: nat, id: Name, on: bool, expected: int)
    requires k < |s.clients| && s.clients[k] == Idle
    ensures Seen(s.log, Next(s, StartToggle(k, id, on, expected)).clients[k])
  {
    var n := Next(s, StartToggle(k, id, on, expected));
    if n.clients[k].Toggling? {
      var x := Find(Current(Stored(s.log)).agents, id).value;
      assert x in s.log[|s.log| - 1].agents;
    }
  }

  lemma SeenStep(s: System, step: Step)
    requires AllSeen(s)
    ensures AllSeen(Next(s, step))
  {
    var n := Next(s, step);
    LogGrows(s, step);
    forall k | 0 <= k < |n.clients| ensures Seen(n.log, n.clients[k]) {
      if n.clients[k] == s.clients[k] {
        SeenLater(s.log, n.log, s.clients[k]);
      } else if n.clients[k].Toggling? {
        ToggleSees(s, k, step.id, step.on, step.expected);
      }
    }
  }

  lemma {:induction false} SeenAlways(s: System, steps: seq<Step>)
    requires AllSeen(s)
    ensures AllSeen(Run(s, steps))
    decreases |steps|
  {
    if steps != [] {
      SeenStep(s, steps[0]);
      SeenAlways(Next(s, steps[0]), steps[1..]);
    }
  }

  /** The entry a toggle writes over an unchanged address. */
  lemma ToggleEntry(stored: Option<Catalog>, t: Phase, o: Agent)
    requires t.Toggling? && Find(Current(stored).agents, t.id) == Some(o) && o.url == t.url
    requires Decide(stored, ToggleOp(t)).Publish?
    ensures o.(revision := o.revision + 1, enabled := t.on) in Decide(stored, ToggleOp(t)).plan.next.agents
  {
    var a := o.(revision := o.revision + 1, enabled := t.on);
    RegisterMembers(Current(stored), a, a);
  }

  lemma SeenIsCurrent(log: seq<Catalog>, t: Phase, o: Agent)
    requires Chain(log) && log != [] && t.Toggling? && Seen(log, t)
    requires o in log[|log| - 1].agents && o.id == t.id && o.revision == t.expected
    ensures o.url == t.url
  {
    var i, x :| 0 <= i < |log| && x in log[i].agents && x.id == t.id && x.revision == t.expected && x.url == t.url;
    OneRegistration(log, i, |log| - 1, x, o);
  }

  lemma SeenIsOld(log: seq<Catalog>, t: Phase)
    requires Chain(log) && t.Toggling? && Seen(log, t)
    ensures log != [] && t.expected >= 1
  {
    var i, x :| 0 <= i < |log| && x in log[i].agents && x.id == t.id && x.revision == t.expected && x.url == t.url;
    assert WellFormed(log[i]);
  }

  /**
   `set_enabled` gives up the lock between reading the address and writing it back. Whatever others
   did meanwhile, it publishes only if the registration is still the one it read, and then changes
   the enabled flag and nothing else.
   */
  lemma ToggleChangesFlagOnly(s: System, k: nat)
    requires Chain(s.log) && AllSeen(s) && k < |s.clients| && s.clients[k].Toggling?
    ensures FlagOnly(s.log, s.clients[k])
  {
    assert Seen(s.log, s.clients[k]);
    ToggleFlagOnly(s.log, s.clients[k]);
  }

  /** What a toggle publishes, if it does: the registration it saw, one revision on, with the flag as asked for. */
  ghost predicate FlagOnly(log: seq<Catalog>, t: Phase)
    requires t.Toggling?
  {
    var c, d := Current(Stored(log)), Decide(Stored(log), ToggleOp(t));
    && (d.Publish? ==> FlagChanged(c.agents, d.plan.next.agents, t))
    && (d.Unchanged? ==> exists x :: x in c.agents && x.id == t.id && x.revision == t.expected && x.enabled == t.on)
    && (d.Publish? <==>
          && Legible(Stored(log), ToggleOp(t))
          && exists o :: o in c.agents && o.id == t.id && o.revision == t.expected && o.enabled != t.on)
  }

  ghost predicate FlagChanged(before: seq<Agent>, after: seq<Agent>, t: Phase)
    requires t.Toggling?
  {
    exists o ::
      && o in before && o.id == t.id && o.revision == t.expected
      && o.(revision := o.revision + 1, enabled := t.on) in after
  }

  /** A toggle publishes exactly on the registration it saw, with the other flag. */
  lemma ToggleDecides(log: seq<Catalog>, t: Phase)
    requires Chain(log) && log != [] && t.Toggling? && Seen(log, t) && t.expected >= 1
    ensures var c, d := Current(Stored(log)), Decide(Stored(log), ToggleOp(t));
            && (d.Unchanged? ==>
                  exists x :: x in c.agents && x.id == t.id && x.revision == t.expected && x.enabled == t.on)
            && (d.Publish? <==>
                  && Legible(Stored(log), ToggleOp(t))
                  && exists o :: o in c.agents && o.id == t.id && o.revision == t.expected && o.enabled != t.on)
  {
    var c, op := Current(Stored(log)), ToggleOp(t);
    DecisionMeans(Stored(log), op);
    if Legible(Stored(log), op) { FoundMeans(c, op); }
    if o :| o in c.agents && o.id == t.id && o.revision == t.expected {
      SeenIsCurrent(log, t, o);
    }
  }

  lemma ToggleFlagOnly(log: seq<Catalog>, t: Phase)
    requires Chain(log) && t.Toggling? && Seen(log, t)
    ensures FlagOnly(log, t)
  {
    SeenIsOld(log, t);
    ToggleDecides(log, t);
    if Decide(Stored(log), ToggleOp(t)).Publish? {
      var o := FoundByToggle(Stored(log), t);
      SeenIsCurrent(log, t, o);
      ToggleEntry(Stored(log), t, o);
      FlagChangedBy(Current(Stored(log)).agents, Decide(Stored(log), ToggleOp(t)).plan.next.agents, t, o);
    }
  }

  lemma FlagChangedBy(before: seq<Agent>, after: seq<Agent>, t: Phase, o: Agent)
    requires t.Toggling? && o in before && o.id == t.id && o.revision == t.expected
    requires o.(revision := o.revision + 1, enabled := t.on) in after
    ensures FlagChanged(before, after, t)
  {
  }

  lemma FoundByToggle(stored: Option<Catalog>, t: Phase) returns (o: Agent)
    requires t.Toggling? && t.expected >= 1 && Decide(stored, ToggleOp(t)).Publish?
    ensures Find(Current(stored).agents, t.id) == Some(o) && o.revision == t.expected
  {
    o := Find(Current(stored).agents, t.id).value;
  }

  /** In every run from the start, for every client between its two critical sections. */
  lemma EveryToggle(s: System, steps: seq<Step>, k: nat)
    requires Initial(s)
    requires k < |Run(s, steps).clients| && Run(s, steps).clients[k].Toggling?
    ensures FlagOnly(Run(s, steps).log, Run(s, steps).clients[k])
  {
    FromTheStart(s, steps);
    SeenAlways(s, steps);
    ToggleChangesFlagOnly(Run(s, steps), k);
  }

  /** A toggle that nothing comes between is published, with the flag as asked for. */
  lemma ToggleGoesThrough(s: System, lost: set<Name>, k: nat, o: Agent, on: bool)
    requires Invariant(s, lost) && k < |s.clients| && s.clients[k] == Idle
    requires Loads(Stored(s.log)) && o in Current(Stored(s.log)).agents && o.enabled != on
    requires o.revision < MAX_REVISION && |s.log| < MAX_REVISION
    ensures var e := Next(Next(Next(s, StartToggle(k, o.id, on, o.revision)), FinishToggle(k)), Compare(k));
            && |e.log| == |s.log| + 1 && s.log <= e.log && e.clients[k] == Idle
            && o.(revision := o.revision + 1, enabled := on) in e.log[|s.log|].agents
  {
    var stored, c := Stored(s.log), Current(Stored(s.log));
    StoredWell(s.log);
    FindsOnly(c.agents, o);
    var t := Toggling(o.id, o.url, on, o.revision);
    var a := Next(s, StartToggle(k, o.id, on, o.revision));
    assert a.clients[k] == t && a.log == s.log;
    ToggleDecidesOn(stored, t, o);
    ToggleEntry(stored, t, o);
    var p := Decide(stored, ToggleOp(t)).plan;
    var b := Next(a, FinishToggle(k));
    assert b.clients[k] == Planned(p, false) && b.log == s.log;
  }

  lemma ToggleDecidesOn(stored: Option<Catalog>, t: Phase, o: Agent)
    requires t.Toggling? && Loads(stored) && Find(Current(stored).agents, t.id) == Some(o)
    requires o.revision == t.expected && o.url == t.url && o.enabled != t.on && 0 <= t.expected < MAX_REVISION
    ensures var d := Decide(stored, ToggleOp(t));
            d.Publish? && d.plan.base == stored && d.plan.made == None && d.plan.drop == None
            && d.plan.next.revision == Current(stored).revision + 1
  {
  }

  // ---------------------------------------------------------------------------- wedging

  ghost predicate Wedged(s: System) {
    Stored(s.log).Some? && !Readable(Stored(s.log).value)
  }

  lemma WedgedStep(s: System, lost: set<Name>, step: Step)
    requires Invariant(s, lost) && Wedged(s)
    ensures Next(s, step).log == s.log
  {
    if (step.Compare? || step.LostCompare?) && step.client < |s.clients| {
      assert PhaseSound(s, s.clients[step.client], lost);
    }
  }

  /** A catalogue over the limit can never be replaced: every later operation fails to read it. */
  lemma {:induction false} WedgedForEver(s: System, lost: set<Name>, steps: seq<Step>)
    requires Invariant(s, lost) && Wedged(s)
    ensures Run(s, steps).log == s.log
    decreases |steps|
  {
    if steps != [] {
      WedgedStep(s, lost, steps[0]);
      StepKeeps(s, lost, steps[0]);
      WedgedForEver(Next(s, steps[0]), lost + LostBy(s, steps[0]), steps[1..]);
    }
  }

  /** One registration of a new agent in a full catalogue is enough to get there. */
  lemma FullCatalogWedges(s: System, lost: set<Name>, k: nat, id: Name, url: string)
    requires Invariant(s, lost) && k < |s.clients| && s.clients[k] == Idle
    requires Stored(s.log).Some? && Readable(Stored(s.log).value)
    requires |Stored(s.log).value.agents| == MAX_AGENTS && !Known(Stored(s.log).value, id) && |s.log| < MAX_REVISION
    ensures var op := Register(id, url, true, 0, None, false, true);
            Wedged(Next(Next(s, Start(k, op)), Compare(k)))
  {
    var op := Register(id, url, true, 0, None, false, true);
    var c := Stored(s.log).value;
    assert c.revision == |s.log|;
    assert Find(c.agents, id).None?;
    assert Decide(Stored(s.log), op).Publish?;
    PublishedIsReadable(Stored(s.log), op);
    var p := Decide(Stored(s.log), op).plan;
    var mid := Next(s, Start(k, op));
    assert mid.clients[k] == Planned(p, false) && mid.log == s.log;
    var end := Next(mid, Compare(k));
    assert end.log == s.log + [p.next];
    assert !Active(c, id);
  }

  // ---------------------------------------------------------------------- the operations

  /** The persistence service, as far as the registry uses it. */
  class Persistence {
    var catalog: Option<Catalog>
    var vault: set<Name>

    constructor ()
      ensures catalog == None && vault == {}
    {
      catalog, vault := None, {};
    }

    method CompareInformation(next: Catalog, base: Option<Catalog>) returns (ok: bool)
      modifies this`catalog
      ensures ok == (old(catalog) == base)
      ensures catalog == if ok then Some(next) else old(catalog)
    {
      ok := catalog == base;
      if ok {
        catalog := Some(next);
      }
    }
  }

  /** Erases the old entry, appends the new one and sorts: here, places it in one pass. */
  method Replace(agents: seq<Agent>, a: Agent) returns (next: seq<Agent>)
    requires Sorted(agents)
    ensures next == Insert(Without(agents, a.id), a)
    ensures Sorted(next)
  {
    var i := 0;
    next := [];
    while i < |agents| && agents[i].id < a.id
      invariant 0 <= i <= |agents|
      invariant forall j :: 0 <= j < i ==> agents[j].id < a.id
      invariant next == agents[..i]
    {
      next := next + [agents[i]];
      i := i + 1;
    }
    var skip := if i < |agents| && agents[i].id == a.id then 1 else 0;
    next := next + [a] + agents[i + skip..];
    ReplaceShape(agents, a, i, skip);
    WithoutSorted(agents, a.id, 0);
    forall x ensures x in Without(agents, a.id) ==> x.id != a.id {
      WithoutMembers(agents, a.id, x);
    }
    InsertSorted(Without(agents, a.id), a, 0);
  }

  lemma {:induction false} WithoutAbsent(agents: seq<Agent>, id: Name)
    requires forall i :: 0 <= i < |agents| ==> agents[i].id != id
    ensures Without(agents, id) == agents
    decreases |agents|
  {
    if agents != [] {
      WithoutAbsent(agents[1..], id);
    }
  }

  lemma InsertFront(agents: seq<Agent>, a: Agent)
    requires forall i :: 0 <= i < |agents| ==> a.id < agents[i].id
    ensures Insert(agents, a) == [a] + agents
  {
  }

  lemma ReplaceFront(agents: seq<Agent>, a: Agent, skip: nat)
    requires Sorted(agents) && (agents != [] ==> agents[0].id >= a.id)
    requires skip == if 0 < |agents| && agents[0].id == a.id then 1 else 0
    ensures Insert(Without(agents, a.id), a) == agents[..0] + [a] + agents[skip..]
  {
    var rest := agents[skip..];
    WithoutAbsent(rest, a.id);
    InsertFront(rest, a);
    if skip == 0 {
      assert rest == agents;
    }
    assert agents[..0] + [a] + rest == [a] + rest;
  }

  lemma ConsSlices(agents: seq<Agent>, a: Agent, i: nat, skip: nat)
    requires 1 <= i && i + skip <= |agents|
    ensures [agents[0]] + (agents[1..][..i - 1] + [a] + agents[1..][i - 1 + skip..]) ==
            agents[..i] + [a] + agents[i + skip..]
  {
  }

  lemma {:induction false} ReplaceShape(agents: seq<Agent>, a: Agent, i: nat, skip: nat)
    requires Sorted(agents) && i <= |agents|
    requires forall j :: 0 <= j < i ==> agents[j].id < a.id
    requires i < |agents| ==> agents[i].id >= a.id
    requires skip == if i < |agents| && agents[i].id == a.id then 1 else 0
    ensures Insert(Without(agents, a.id), a) == agents[..i] + [a] + agents[i + skip..]
    decreases |agents|
  {
    if i == 0 {
      ReplaceFront(agents, a, skip);
    } else {
      var rest := agents[1..];
      SortedCons(agents[0], rest);
      assert agents == [agents[0]] + rest;
      ReplaceShape(rest, a, i - 1, skip);
      var w := Without(rest, a.id);
      assert Without(agents, a.id) == [agents[0]] + w;
      ConsParts(agents[0], w);
      assert Insert([agents[0]] + w, a) == [agents[0]] + Insert(w, a);
      ConsSlices(agents, a, i, skip);
    }
  }

  /** Publication with its clean-up: a failure deletes what was created, a success what was replaced. */
  method PublishPlan(p: Persistence, plan: Plan, rival: Option<Catalog>, revision: nat)
    returns (r: Result<nat, Failure>)
    requires p.catalog == plan.base
    modifies p
    ensures var made := if plan.made.Some? then {plan.made.value} else {};
            if plan.next.revision > MAX_REVISION then
              r == Err(Exhausted) && p.catalog == old(p.catalog) && p.vault == old(p.vault) - made
            else if rival.Some? && rival != plan.base then
              r == Err(Conflict) && p.catalog == rival && p.vault == old(p.vault) - made
            else
              && r == Ok(revision) && p.catalog == Some(plan.next)
              && p.vault == old(p.vault) - (if plan.drop.Some? then {plan.drop.value} else {})
  {
    var failure := Exhausted;
    if plan.next.revision <= MAX_REVISION {
      if rival.Some? { p.catalog := rival; }
      var ok := p.CompareInformation(plan.next, plan.base);
      if ok {
        if plan.drop.Some? { p.vault := p.vault - {plan.drop.value}; }
        return Ok(revision);
      }
      failure := Conflict;
    }
    if plan.made.Some? { p.vault := p.vault - {plan.made.value}; }
    r := Err(failure);
  }

  /** What an operation that met `rival` left behind, as it was decided. */
  ghost predicate Decided(stored: Option<Catalog>, vault: set<Name>, op: Op, rival: Option<Catalog>,
                          r: Result<nat, Failure>, catalog: Option<Catalog>, kept: set<Name>) {
    match Decide(stored, op)
    case Refuse(f) => r == Err(f) && catalog == stored && kept == vault
    case Unchanged(a) => r == Ok(a.revision) && catalog == stored && kept == vault
    case Publish(plan) =>
      if plan.next.revision > MAX_REVISION then r == Err(Exhausted) && catalog == stored && kept == vault
      else if rival.Some? && rival != stored then r == Err(Conflict) && catalog == rival && kept == vault
      else
        && r == Ok(if op.Register? then op.expected + 1 else op.expected) && catalog == Some(plan.next)
        && kept == vault + (if plan.made.Some? then {plan.made.value} else {})
                         - (if plan.drop.Some? then {plan.drop.value} else {})
  }

  /** The operation is to change the document, and there is room for it. */
  predicate Goes(c: Catalog, op: Op) {
    Timely(c, op) && !Already(c, op) && (op.Remove? ==> |c.retired| < MAX_RETIRED)
  }

  /** Another document was stored between the read and the comparison. */
  predicate Overtaken(stored: Option<Catalog>, rival: Option<Catalog>) {
    rival.Some? && rival != stored && Current(stored).revision < MAX_REVISION
  }

  /** Each refusal has its own condition. */
  ghost predicate Refusals(stored: Option<Catalog>, op: Op, rival: Option<Catalog>, r: Result<nat, Failure>) {
    var c := Current(stored);
    && (r == Err(Invalid) <==> Malformed(op))
    && (r == Err(Unreadable) <==> !Malformed(op) && !Legible(stored, op))
    && (r == Err(NotFound) <==> Legible(stored, op) && op.Remove? && !Active(c, op.id))
    && (r == Err(Conflict) <==>
          && Legible(stored, op)
          && if Timely(c, op) then Goes(c, op) && Overtaken(stored, rival) else op.Remove? ==> Active(c, op.id))
    && (r == Err(Exhausted) <==>
          && Legible(stored, op) && Timely(c, op)
          && if Goes(c, op) then c.revision >= MAX_REVISION else op.Remove?)
  }

  /** The credentials kept: those there were and the new one, but for what only the old document names. */
  ghost predicate Keeps(before: Catalog, after: Catalog, op: Op, vault: set<Name>, kept: set<Name>) {
    forall k ::
      k in kept <==>
      (k in vault || (op.Register? && op.bearer == Some(k))) && (Uses(before, k) ==> Uses(after, k))
  }

  /** What a successful operation has done, in terms of the documents before and after. */
  ghost predicate Done(before: Catalog, op: Op, revision: nat, after: Catalog) {
    && (forall x: Agent :: x.id != op.id ==> (x in after.agents <==> x in before.agents))
    && match op
       case Register(_, _, _, expected, _, _, _) =>
         && after.retired == before.retired
         && (exists x :: x in after.agents && x.revision == revision && AsAsked(before, op, x))
         && revision == if Already(before, op) then expected else expected + 1
       case Remove(id, expected) =>
         && Active(before, id) && !Active(after, id) && after.retired == before.retired + [id]
         && revision == expected
  }

  lemma RefusalsMean(stored: Option<Catalog>, vault: set<Name>, op: Op, rival: Option<Catalog>,
                     r: Result<nat, Failure>, catalog: Option<Catalog>, kept: set<Name>)
    requires Decided(stored, vault, op, rival, r, catalog, kept)
    ensures Refusals(stored, op, rival, r)
  {
    DecisionMeans(stored, op);
  }

  lemma SuccessMeans(stored: Option<Catalog>, vault: set<Name>, op: Op, rival: Option<Catalog>,
                     r: Result<nat, Failure>, catalog: Option<Catalog>, kept: set<Name>)
    requires Decided(stored, vault, op, rival, r, catalog, kept) && r.Ok?
    requires stored.Some? ==> Sorted(stored.value.agents)
    ensures Done(Current(stored), op, r.value, Current(catalog))
    ensures catalog == stored <==> Already(Current(stored), op)
  {
    DecisionMeans(stored, op);
    if Decide(stored, op).Unchanged? {
      UnchangedMeans(stored, op);
    } else {
      PublishedContents(stored, op);
      if op.Register? { PublishedMeans(stored, op); }
    }
  }

  lemma VaultMeans(stored: Option<Catalog>, vault: set<Name>, op: Op, rival: Option<Catalog>,
                   r: Result<nat, Failure>, catalog: Option<Catalog>, kept: set<Name>)
    requires Decided(stored, vault, op, rival, r, catalog, kept) && r.Ok?
    requires stored.Some? ==> Sorted(stored.value.agents)
    requires op.Register? && op.bearer.Some? ==> !Uses(Current(stored), op.bearer.value)
    ensures Keeps(Current(stored), Current(catalog), op, vault, kept)
  {
    DecisionMeans(stored, op);
    if Decide(stored, op).Publish? {
      PlansAreSound(stored, op);
    }
  }

  /**
   `register_agent` and `remove` under the registry's lock, which does not keep other processes out:
   `rival` is a document one of them stores between the read and the comparison. The catalogue and
   the credentials change together or not at all.
   */
  method Perform(p: Persistence, op: Op, rival: Option<Catalog>) returns (r: Result<nat, Failure>)
    requires p.catalog.Some? ==> Sorted(p.catalog.value.agents)
    requires op.Register? && op.bearer.Some? ==> op.bearer.value !in p.vault
    modifies p
    ensures Refusals(old(p.catalog), op, rival, r)
    ensures r.Err? ==> p.vault == old(p.vault)
    ensures r.Err? ==> p.catalog == old(p.catalog) || (r == Err(Conflict) && p.catalog == rival)
    ensures r.Ok? ==> Done(Current(old(p.catalog)), op, r.value, Current(p.catalog))
    ensures r.Ok? ==> (p.catalog == old(p.catalog) <==> Already(Current(old(p.catalog)), op))
    ensures r.Ok? && (op.Register? && op.bearer.Some? ==> !Uses(Current(old(p.catalog)), op.bearer.value)) ==>
              Keeps(Current(old(p.catalog)), Current(p.catalog), op, old(p.vault), p.vault)
    ensures p.catalog.Some? && r.Ok? ==> Sorted(p.catalog.value.agents)
  {
    ghost var stored, vault := p.catalog, p.vault;
    r := PerformDecided(p, op, rival);
    RefusalsMean(stored, vault, op, rival, r, p.catalog, p.vault);
    if r.Ok? {
      SuccessMeans(stored, vault, op, rival, r, p.catalog, p.vault);
      StaysSorted(stored, vault, op, rival, r, p.catalog, p.vault);
      if op.Register? && op.bearer.Some? && Uses(Current(stored), op.bearer.value) {
      } else {
        VaultMeans(stored, vault, op, rival, r, p.catalog, p.vault);
      }
    }
  }

  lemma StaysSorted(stored: Option<Catalog>, vault: set<Name>, op: Op, rival: Option<Catalog>,
                    r: Result<nat, Failure>, catalog: Option<Catalog>, kept: set<Name>)
    requires Decided(stored, vault, op, rival, r, catalog, kept) && r.Ok?
    requires stored.Some? ==> Sorted(stored.value.agents)
    ensures catalog.Some? ==> Sorted(catalog.value.agents)
  {
    var c := Current(stored);
    if Decide(stored, op).Publish? && op.Remove? {
      WithoutSorted(c.agents, op.id, 0);
    } else if Decide(stored, op).Publish? {
      var held := if Find(c.agents, op.id).Some? then Find(c.agents, op.id).value.credential else None;
      var revision := if Find(c.agents, op.id).Some? then Find(c.agents, op.id).value.revision + 1 else 1;
      RegisterShape(c, Agent(op.id, revision, op.url, op.enabled, NextCredential(held, op)),
                    Decide(stored, op).plan.next.agents);
    }
  }

  method PerformDecided(p: Persistence, op: Op, rival: Option<Catalog>) returns (r: Result<nat, Failure>)
    requires p.catalog.Some? ==> Sorted(p.catalog.value.agents)
    requires op.Register? && op.bearer.Some? ==> op.bearer.value !in p.vault
    modifies p
    ensures Decided(old(p.catalog), old(p.vault), op, rival, r, p.catalog, p.vault)
  {
    var c := Current(p.catalog);
    if if op.Register? then !op.wellFormed || op.expected < 0 || op.expected == MAX_REVISION
                            || (op.bearer.Some? && op.clear)
       else op.expected < 1
    {
      return Err(Invalid);
    }
    if p.catalog.Some? && !(Readable(c) && Decodable(c)) { return Err(Unreadable); }
    match op {
      case Register(_, _, _, _, _, _, _) => r := RegisterAgent(p, op, c, rival);
      case Remove(_, _) => r := RemoveAgent(p, op, c, rival);
    }
  }

  /** The rest of `register_agent`, behind its tests and its read. */
  method RegisterAgent(p: Persistence, op: Op, c: Catalog, rival: Option<Catalog>) returns (r: Result<nat, Failure>)
    requires op.Register? && Legible(p.catalog, op) && c == Current(p.catalog) && Sorted(c.agents)
    requires op.bearer.Some? ==> op.bearer.value !in p.vault
    modifies p
    ensures Decided(old(p.catalog), old(p.vault), op, rival, r, p.catalog, p.vault)
  {
    var found := Find(c.agents, op.id);
    if (if found.Some? then found.value.revision else 0) != op.expected { return Err(Conflict); }
    if found.None? && op.id in c.retired { return Err(Conflict); }
    if found.Some? && found.value.url == op.url && found.value.enabled == op.enabled && op.bearer.None? && !op.clear {
      return Ok(found.value.revision);
    }
    var held := if found.Some? then found.value.credential else None;
    var credential := MakeCredential(p, op, held);
    var revision := if found.Some? then found.value.revision + 1 else 1;
    var agents := Replace(c.agents, Agent(op.id, revision, op.url, op.enabled, credential));
    var plan := Plan(p.catalog, Catalog(c.revision + 1, agents, c.retired), op.bearer,
                     if held != credential then held else None);
    assert Decide(p.catalog, op) == Publish(plan);
    r := PublishPlan(p, plan, rival, revision);
  }

  /** Creates a new credential, drops the one held or keeps it. */
  method MakeCredential(p: Persistence, op: Op, held: Option<Name>) returns (credential: Option<Name>)
    requires op.Register?
    modifies p`vault
    ensures p.vault == old(p.vault) + (if op.bearer.Some? then {op.bearer.value} else {})
    ensures credential == NextCredential(held, op)
  {
    credential := held;
    if op.bearer.Some? {
      credential := op.bearer;
      p.vault := p.vault + {op.bearer.value};
    } else if op.clear {
      credential := None;
    }
  }

  /** The rest of `remove`. */
  method RemoveAgent(p: Persistence, op: Op, c: Catalog, rival: Option<Catalog>) returns (r: Result<nat, Failure>)
    requires op.Remove? && Legible(p.catalog, op) && c == Current(p.catalog)
    modifies p
    ensures Decided(old(p.catalog), old(p.vault), op, rival, r, p.catalog, p.vault)
  {
    var found := Find(c.agents, op.id);
    if found.None? { return Err(NotFound); }
    if found.value.revision != op.expected { return Err(Conflict); }
    if |c.retired| >= MAX_RETIRED { return Err(Exhausted); }
    var next := Catalog(c.revision + 1, Without(c.agents, op.id), c.retired + [op.id]);
    r := PublishPlan(p, Plan(p.catalog, next, None, found.value.credential), rival, found.value.revision);
  }

  predicate Loads(stored: Option<Catalog>) {
    stored.Some? ==> Readable(stored.value) && Decodable(stored.value)
  }

  /** The registration that a toggle was asked to change. */
  predicate Shown(c: Catalog, id: Name, expected: int, o: Agent) {
    o in c.agents && o.id == id && o.revision == expected
  }

  /** Whether the second critical section of a toggle succeeds on the document it finds. */
  predicate Succeeds(found: Option<Catalog>, op: Op, rival: Option<Catalog>) {
    && Legible(found, op) && Timely(Current(found), op)
    && (Already(Current(found), op) || (Current(found).revision < MAX_REVISION && !Overtaken(found, rival)))
  }

  lemma OtherwiseSucceeds(found: Option<Catalog>, op: Op, rival: Option<Catalog>, r: Result<nat, Failure>)
    requires op.Register? && Refusals(found, op, rival, r)
    ensures r.Ok? <==> Succeeds(found, op, rival)
  {
    match r {
      case Err(Invalid) =>
      case Err(Unreadable) =>
      case Err(NotFound) =>
      case Err(Conflict) =>
      case Err(Exhausted) =>
      case Ok(_) =>
    }
  }

  /** A registration that neither sets nor clears a credential drops none. */
  lemma CredentialsStay(before: Catalog, op: Op, revision: nat, after: Catalog, k: Name)
    requires Sorted(before.agents) && Done(before, op, revision, after)
    requires op.Register? && op.bearer.None? && !op.clear && Uses(before, k)
    ensures Uses(after, k)
  {
    var o :| o in before.agents && o.credential == Some(k);
    if o.id == op.id {
      var x :| x in after.agents && x.revision == revision && AsAsked(before, op, x);
      var y :| y in before.agents && y.id == op.id && y.credential == x.credential;
      SortedUnique(before.agents, o, y);
    }
  }

  /**
   `set_enabled`: it reads the registration, gives up the lock, and registers the address it read with
   the flag asked for. `between` is what others stored meanwhile, `rival` as in `Perform`.
   */
  method SetEnabled(p: Persistence, id: Name, on: bool, expected: int, between: Option<Catalog>, rival: Option<Catalog>)
    returns (r: Result<nat, Failure>)
    requires p.catalog.Some? ==> Sorted(p.catalog.value.agents)
    requires between.Some? ==> Sorted(between.value.agents)
    modifies p
    ensures p.vault == old(p.vault)
    ensures r.Ok? ==>
              && p.catalog.Some?
              && exists o, x ::
                && Shown(Current(old(p.catalog)), id, expected, o) && x in p.catalog.value.agents
                && x.id == id && x.url == o.url && x.enabled == on && x.revision == r.value
    ensures r == Err(NotFound) <==> Loads(old(p.catalog)) && !Active(Current(old(p.catalog)), id)
    ensures !Loads(old(p.catalog)) ==> r == Err(Unreadable) && p.catalog == old(p.catalog)
    ensures Loads(old(p.catalog)) && Active(Current(old(p.catalog)), id)
            && (forall o :: !Shown(Current(old(p.catalog)), id, expected, o)) ==>
              r == Err(Conflict) && p.catalog == old(p.catalog)
    ensures r.Ok? <==>
              && Loads(old(p.catalog))
              && exists o ::
                && Shown(Current(old(p.catalog)), id, expected, o)
                && (|| o.enabled == on
                    || Succeeds(if between.Some? then between else old(p.catalog),
                                Register(id, o.url, on, expected, None, false, true), rival))
  {
    ghost var stored := p.catalog;
    var c := Current(p.catalog);
    if p.catalog.Some? && !(Readable(c) && Decodable(c)) { return Err(Unreadable); }
    var found := Find(c.agents, id);
    FoundMeans(c, Remove(id, expected));
    if found.None? { return Err(NotFound); }
    if found.value.revision != expected { return Err(Conflict); }
    assert Shown(Current(stored), id, expected, found.value);
    if found.value.enabled == on { return Ok(found.value.revision); }
    r := Again(p, Register(id, found.value.url, on, expected, None, false, true), between, rival);
  }

  /** The second critical section. */
  method Again(p: Persistence, op: Op, between: Option<Catalog>, rival: Option<Catalog>)
    returns (r: Result<nat, Failure>)
    requires op.Register? && op.bearer.None? && !op.clear
    requires p.catalog.Some? ==> Sorted(p.catalog.value.agents)
    requires between.Some? ==> Sorted(between.value.agents)
    modifies p
    ensures p.vault == old(p.vault) && r != Err(NotFound)
    ensures r.Ok? ==>
              && p.catalog.Some?
              && exists x :: x in p.catalog.value.agents && x.id == op.id && x.url == op.url && x.enabled == op.enabled
                             && x.revision == r.value
    ensures r.Ok? <==> Succeeds(if between.Some? then between else old(p.catalog), op, rival)
  {
    if between.Some? { p.catalog := between; }
    ghost var before, vault := p.catalog, p.vault;
    r := Perform(p, op, rival);
    OtherwiseSucceeds(before, op, rival, r);
    if r.Ok? {
      forall k | Uses(Current(before), k) ensures Uses(Current(p.catalog), k) {
        CredentialsStay(Current(before), op, r.value, Current(p.catalog), k);
      }
      assert forall k :: k in p.vault <==> k in vault;
    }
  }
}
