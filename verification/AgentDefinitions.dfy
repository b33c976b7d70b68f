/**
 The catalogue of named agents: `apply` compares a desired document with the stored catalogue, numbers
 what changed and retires what is gone.
 */
module AgentDefinitions {
  import opened Common
  import opened DefinitionDocument

  // ----------------------------------------------------------------------------- apply

  function Find(entries: seq<Agent>, id: string): (r: Option<Agent>)
    ensures r.Some? ==> r.value in entries && r.value.id == id
    ensures r.None? ==> forall a :: a in entries ==> a.id != id
  {
    if entries == [] then None else if entries[0].id == id then Some(entries[0]) else Find(entries[1..], id)
  }

  /** A new agent starts at one; a changed one moves on; an unchanged one keeps its number. */
  function RevisionOf(previous: Catalog, e: Agent): nat {
    var found := Find(previous.entries, e.id);
    if found.None? then 1 else if found.value.content == e.content then found.value.revision
    else found.value.revision + 1
  }

  function Revised(previous: Catalog, desired: seq<Agent>): (r: seq<Agent>)
    ensures |r| == |desired|
    ensures forall i :: 0 <= i < |desired| ==> r[i] == desired[i].(revision := RevisionOf(previous, desired[i]))
  {
    seq(|desired|, i requires 0 <= i < |desired| => desired[i].(revision := RevisionOf(previous, desired[i])))
  }

  /** The identifiers among the first `n` entries that the document no longer names, in their order. */
  function Dropped(entries: seq<Agent>, n: nat, desired: seq<Agent>): seq<string>
    requires n <= |entries|
  {
    if n == 0 then []
    else
      var before := Dropped(entries, n - 1, desired);
      if Find(desired, entries[n - 1].id).None? then before + [entries[n - 1].id] else before
  }

  predicate Exhausted(previous: Catalog, e: Agent) {
    var found := Find(previous.entries, e.id);
    found.Some? && found.value.content != e.content && found.value.revision == MAX_REVISION
  }

  predicate Refused(previous: Catalog, desired: seq<Agent>) {
    || (exists e :: e in desired && (e.id in previous.retired || Exhausted(previous, e)))
    || |previous.retired| + |Dropped(previous.entries, |previous.entries|, desired)| > MAX_RETIRED
  }

  /** The document describes exactly the stored agents, in the stored order. */
  predicate SameDocument(previous: Catalog, desired: seq<Agent>) {
    && previous.revision > 0 && |desired| == |previous.entries|
    && forall i :: 0 <= i < |desired| ==>
      desired[i].id == previous.entries[i].id && desired[i].content == previous.entries[i].content
  }

  function Next(previous: Catalog, desired: seq<Agent>): Catalog {
    Catalog(previous.revision + 1, Revised(previous, desired),
            previous.retired + Dropped(previous.entries, |previous.entries|, desired))
  }

  datatype Decision = Refuse | Keep | Write(next: Catalog)

  function Decide(previous: Catalog, desired: seq<Agent>): Decision {
    if Refused(previous, desired) then Refuse
    else if SameDocument(previous, desired) then Keep
    else if previous.revision == MAX_REVISION then Refuse
    else Write(Next(previous, desired))
  }

  predicate Stable(c: Catalog) {
    c == Catalog(0, [], []) || Valid(c)
  }

  lemma FoundIsSame(entries: seq<Agent>, i: nat)
    requires Distinct(Ids(entries)) && i < |entries|
    ensures Find(entries, entries[i].id) == Some(entries[i])
  {
    var found := Find(entries, entries[i].id);
    assert entries[i] in entries;
    var j :| 0 <= j < |entries| && entries[j] == found.value;
    var ids := Ids(entries);
    assert ids[i] == ids[j];
    DistinctIndex(ids, i, j);
  }

  lemma DistinctIndex(names: seq<string>, i: nat, j: nat)
    requires Distinct(names) && i < |names| && j < |names| && names[i] == names[j]
    ensures i == j
  {
  }

  /** The flag the loops compute: something new, changed, moved or gone. */
  ghost predicate Differs(previous: Catalog, desired: seq<Agent>, i: nat)
    requires i < |desired|
  {
    var found := Find(previous.entries, desired[i].id);
    found.None? || found.value.content != desired[i].content || i >= |previous.entries|
      || previous.entries[i].id != desired[i].id
  }

  lemma FlagMeansDifferent(previous: Catalog, desired: seq<Agent>)
    requires Stable(previous)
    ensures SameDocument(previous, desired) <==>
              previous.revision > 0 && |desired| == |previous.entries| && forall i :: 0 <= i < |desired| ==>
                !Differs(previous, desired, i)
  {
    forall i | 0 <= i < |desired| && i < |previous.entries| && desired[i].id == previous.entries[i].id
      ensures Find(previous.entries, desired[i].id) == Some(previous.entries[i])
    {
      FoundIsSame(previous.entries, i);
    }
    if SameDocument(previous, desired) {
      forall i | 0 <= i < |desired| ensures !Differs(previous, desired, i) {
        assert desired[i].id == previous.entries[i].id;
      }
    } else if previous.revision > 0 && |desired| == |previous.entries| {
      if forall i :: 0 <= i < |desired| ==> !Differs(previous, desired, i) {
        forall i | 0 <= i < |desired|
          ensures desired[i].id == previous.entries[i].id && desired[i].content == previous.entries[i].content
        {
          assert !Differs(previous, desired, i);
        }
      }
    }
  }

  lemma SameDropsNothing(previous: Catalog, desired: seq<Agent>, n: nat)
    requires SameDocument(previous, desired) && n <= |previous.entries|
    ensures Dropped(previous.entries, n, desired) == []
  {
    if n > 0 {
      SameDropsNothing(previous, desired, n - 1);
      assert desired[n - 1] in desired;
    }
  }

  // -------------------------------------------------------- what one apply decides and writes

  /** The stored agent of the same identifier, which is unique. */
  ghost predicate Before(previous: Catalog, e: Agent, o: Agent) {
    o in previous.entries && o.id == e.id
  }

  /** The agent is new, and its identifier was never used. */
  predicate Fresh(previous: Catalog, id: string) {
    !Active(previous, id)
  }

  lemma FindsOnly(previous: Catalog, e: Agent, o: Agent)
    requires Stable(previous) && Before(previous, e, o)
    ensures Find(previous.entries, e.id) == Some(o)
  {
    StableParts(previous);
    var i :| 0 <= i < |previous.entries| && previous.entries[i] == o;
    FoundIsSame(previous.entries, i);
  }

  /** How a written agent is numbered: it starts at one, keeps its number with its content, or moves on by one. */
  lemma RevisionMeans(previous: Catalog, e: Agent)
    requires Stable(previous)
    ensures Fresh(previous, e.id) ==> RevisionOf(previous, e) == 1
    ensures forall o :: Before(previous, e, o) ==>
              RevisionOf(previous, e) == if o.content == e.content then o.revision else o.revision + 1
  {
    forall o | Before(previous, e, o)
      ensures RevisionOf(previous, e) == if o.content == e.content then o.revision else o.revision + 1
    {
      FindsOnly(previous, e, o);
    }
  }

  /** Written are the agents of the document in their order; the identifiers gone are retired, no others. */
  lemma WrittenContents(previous: Catalog, desired: seq<Agent>)
    requires Stable(previous) && Decide(previous, desired).Write?
    ensures var n := Decide(previous, desired).next;
            && n.revision == previous.revision + 1 && |n.entries| == |desired|
            && (forall i :: 0 <= i < |desired| ==>
                  && n.entries[i].id == desired[i].id && n.entries[i].content == desired[i].content
                  && (Fresh(previous, desired[i].id) ==> n.entries[i].revision == 1)
                  && forall o :: Before(previous, desired[i], o) ==>
                       n.entries[i].revision == if o.content == desired[i].content then o.revision else o.revision + 1)
            && previous.retired <= n.retired
            && (forall id :: id in n.retired <==>
                  id in previous.retired || (Active(previous, id) && forall e :: e in desired ==> e.id != id))
  {
    var n := Decide(previous, desired).next;
    forall i | 0 <= i < |desired|
      ensures n.entries[i].id == desired[i].id && n.entries[i].content == desired[i].content
      ensures Fresh(previous, desired[i].id) ==> n.entries[i].revision == 1
      ensures forall o :: Before(previous, desired[i], o) ==>
                n.entries[i].revision == if o.content == desired[i].content then o.revision else o.revision + 1
    {
      RevisionMeans(previous, desired[i]);
    }
    forall id
      ensures id in n.retired <==>
                id in previous.retired || (Active(previous, id) && forall e :: e in desired ==> e.id != id)
    {
      GoneMeans(previous, desired, id);
    }
  }

  lemma GoneMeans(previous: Catalog, desired: seq<Agent>, id: string)
    ensures id in Dropped(previous.entries, |previous.entries|, desired) <==>
              Active(previous, id) && forall e :: e in desired ==> e.id != id
  {
    var ids := Ids(previous.entries);
    assert ids[..|previous.entries|] == ids;
    DroppedMembers(previous.entries, |previous.entries|, desired, id);
    assert id in ids <==> Active(previous, id) by {
      if id in ids {
        var i :| 0 <= i < |ids| && ids[i] == id;
        assert previous.entries[i] in previous.entries;
      }
      if a :| a in previous.entries && a.id == id {
        var i :| 0 <= i < |previous.entries| && previous.entries[i] == a;
        assert ids[i] == id;
      }
    }
  }

  /** The identifiers that a document retires. */
  ghost function Gone(previous: Catalog, desired: seq<Agent>): set<string> {
    set a | a in previous.entries && (forall e :: e in desired ==> e.id != a.id) :: a.id
  }

  lemma {:induction false} DistinctCount(names: seq<string>, all: set<string>)
    requires Distinct(names) && forall x :: x in names <==> x in all
    ensures |names| == |all|
    decreases |names|
  {
    if names == [] {
      assert all == {};
    } else {
      var last, front := names[|names| - 1], names[..|names| - 1];
      forall x ensures x in front <==> x in all - {last} {
        assert x in names <==> x in front || x == last;
      }
      DistinctCount(front, all - {last});
    }
  }

  lemma GoneCount(previous: Catalog, desired: seq<Agent>)
    requires Stable(previous)
    ensures |Dropped(previous.entries, |previous.entries|, desired)| == |Gone(previous, desired)|
  {
    StableParts(previous);
    DroppedDistinct(previous.entries, |previous.entries|, desired);
    forall id ensures id in Dropped(previous.entries, |previous.entries|, desired) <==> id in Gone(previous, desired) {
      GoneMeans(previous, desired, id);
    }
    DistinctCount(Dropped(previous.entries, |previous.entries|, desired), Gone(previous, desired));
  }

  /** A document that cannot be applied: it names a retired agent, or a number or the retirements run out. */
  ghost predicate Impossible(previous: Catalog, desired: seq<Agent>) {
    || (exists e :: e in desired && e.id in previous.retired)
    || (exists e, o :: e in desired && Before(previous, e, o) && o.content != e.content && o.revision == MAX_REVISION)
    || |previous.retired| + |Gone(previous, desired)| > MAX_RETIRED
  }

  lemma RefusedIsImpossible(previous: Catalog, desired: seq<Agent>)
    requires Stable(previous)
    ensures Refused(previous, desired) <==> Impossible(previous, desired)
  {
    GoneCount(previous, desired);
    if e :| e in desired && Exhausted(previous, e) {
      assert Before(previous, e, Find(previous.entries, e.id).value);
    }
    if e, o :| e in desired && Before(previous, e, o) && o.content != e.content && o.revision == MAX_REVISION {
      FindsOnly(previous, e, o);
      assert Exhausted(previous, e);
    }
  }

  /** When a document is refused, kept or written. */
  lemma DecisionMeans(previous: Catalog, desired: seq<Agent>)
    requires Stable(previous)
    ensures var same := previous.revision > 0 && |desired| == |previous.entries| && forall i :: 0 <= i < |desired| ==>
                          desired[i].id == previous.entries[i].id && desired[i].content == previous.entries[i].content;
            && (Decide(previous, desired).Keep? <==> same)
            && (Decide(previous, desired).Refuse? <==>
                  !same && (Impossible(previous, desired) || previous.revision == MAX_REVISION))
  {
    KeepsIffSame(previous, desired);
    RefusedIsImpossible(previous, desired);
  }

  // ---------------------------------------------------------------- one apply keeps validity

  lemma {:induction false} DroppedMembers(entries: seq<Agent>, n: nat, desired: seq<Agent>, id: string)
    requires n <= |entries|
    ensures id in Dropped(entries, n, desired) <==> id in Ids(entries)[..n] && Find(desired, id).None?
  {
    if n > 0 {
      DroppedMembers(entries, n - 1, desired, id);
      assert Ids(entries)[..n] == Ids(entries)[..n - 1] + [entries[n - 1].id];
    }
  }

  lemma {:induction false} DroppedDistinct(entries: seq<Agent>, n: nat, desired: seq<Agent>)
    requires n <= |entries| && Distinct(Ids(entries))
    ensures Distinct(Dropped(entries, n, desired))
  {
    if n > 0 {
      DroppedDistinct(entries, n - 1, desired);
      var last := entries[n - 1].id;
      DroppedMembers(entries, n - 1, desired, last);
      assert last !in Ids(entries)[..n - 1];
    }
  }

  lemma NextEntriesValid(previous: Catalog, desired: seq<Agent>)
    requires ValidEntries(desired)
    ensures ValidEntries(Revised(previous, desired))
  {
    var r := Revised(previous, desired);
    assert Ids(r) == Ids(desired);
    forall a | a in r ensures Identifier(a.id, 64) && ValidContent(a.content) {
      var i :| 0 <= i < |r| && r[i] == a;
      assert desired[i] in desired;
    }
  }

  lemma RevisionBounds(previous: Catalog, e: Agent)
    requires Stable(previous) && !Exhausted(previous, e)
    ensures 1 <= RevisionOf(previous, e) <= previous.revision + 1
  {
  }

  lemma NextRevisionsValid(previous: Catalog, desired: seq<Agent>)
    requires Stable(previous) && !Refused(previous, desired) && previous.revision < MAX_REVISION
    ensures ValidRevisions(Next(previous, desired))
  {
    var n := Next(previous, desired);
    forall a | a in n.entries ensures 1 <= a.revision <= n.revision {
      var i :| 0 <= i < |desired| && n.entries[i] == a;
      assert desired[i] in desired;
      RevisionBounds(previous, desired[i]);
    }
  }

  lemma ConcatDistinct(a: seq<string>, b: seq<string>)
    requires Distinct(a) && Distinct(b) && forall x :: x in b ==> x !in a
    ensures Distinct(a + b)
  {
    var c := a + b;
    forall i, j | 0 <= i < j < |c| ensures c[i] != c[j] {
      if i < |a| <= j {
        assert c[j] == b[j - |a|];
        assert b[j - |a|] in b && a[i] in a;
      }
    }
  }

  lemma StableParts(c: Catalog)
    requires Stable(c)
    ensures Distinct(Ids(c.entries)) && ValidRetired(c)
    ensures forall a :: a in c.entries ==> Identifier(a.id, 64)
  {
  }

  /** What is retired next: the retired before and the entries gone, none of them active. */
  lemma NextRetiredValid(previous: Catalog, desired: seq<Agent>)
    requires Stable(previous) && ValidEntries(desired) && !Refused(previous, desired)
    ensures ValidRetired(Next(previous, desired))
  {
    StableParts(previous);
    var n := Next(previous, desired);
    var gone := Dropped(previous.entries, |previous.entries|, desired);
    var ids := Ids(previous.entries);
    assert ids[..|previous.entries|] == ids;
    forall id ensures id in gone <==> id in ids && Find(desired, id).None? {
      DroppedMembers(previous.entries, |previous.entries|, desired, id);
    }
    DroppedDistinct(previous.entries, |previous.entries|, desired);
    ConcatDistinct(previous.retired, gone);
    forall id | id in n.retired ensures Identifier(id, 64) && id !in Ids(n.entries) {
      RetiredStaysOut(previous, desired, id);
    }
  }

  lemma RetiredStaysOut(previous: Catalog, desired: seq<Agent>, id: string)
    requires Stable(previous) && !Refused(previous, desired)
    requires id in previous.retired || (id in Ids(previous.entries) && Find(desired, id).None?)
    ensures Identifier(id, 64) && id !in Ids(Revised(previous, desired))
  {
    StableParts(previous);
    if id !in previous.retired {
      var i :| 0 <= i < |previous.entries| && Ids(previous.entries)[i] == id;
      assert previous.entries[i] in previous.entries;
    }
    forall i | 0 <= i < |desired| ensures desired[i].id != id {
      assert desired[i] in desired;
    }
  }

  /** Every catalogue `apply` writes is valid, so it is read back as it was written. */
  lemma WrittenIsValid(previous: Catalog, desired: seq<Agent>)
    requires Stable(previous) && ValidEntries(desired) && Decide(previous, desired).Write?
    ensures Valid(Next(previous, desired))
    ensures DecodeStored(Encode(Next(previous, desired))) == Some(Next(previous, desired))
  {
    NextEntriesValid(previous, desired);
    NextRevisionsValid(previous, desired);
    NextRetiredValid(previous, desired);
    EncodedDecodes(Next(previous, desired));
  }

  lemma SameIsNotRefused(previous: Catalog, desired: seq<Agent>, i: nat)
    requires Stable(previous) && SameDocument(previous, desired) && i < |desired|
    ensures desired[i].id !in previous.retired && !Exhausted(previous, desired[i])
  {
    StableParts(previous);
    FoundIsSame(previous.entries, i);
    assert Ids(previous.entries)[i] in Ids(previous.entries);
  }

  lemma RevisedItems(previous: Catalog, items: seq<Json>, desired: seq<Agent>, i: nat)
    requires All(items, (j: Json) => DecodeAgent(j, false)) == Some(desired) && i < |items|
    requires Stable(previous) && !Refused(previous, desired) && previous.revision < MAX_REVISION
    ensures var a := Revised(previous, desired)[i];
            a.revision <= MAX_REVISION && DecodeAgent(items[i], false) == Some(a.(revision := 0))
  {
    assert desired[i] in desired;
    RevisionBounds(previous, desired[i]);
    assert DecodeAgent(items[i], false) == Some(desired[i]);
    assert desired[i].revision == 0;
  }

  lemma EntriesLength(previous: Catalog, items: seq<Json>, desired: seq<Agent>)
    requires All(items, (j: Json) => DecodeAgent(j, false)) == Some(desired) && |items| <= MAX_AGENTS
    requires Stable(previous) && !Refused(previous, desired) && previous.revision < MAX_REVISION
    ensures Length(Arr(Map(Revised(previous, desired), EncodeAgent))) <= Length(Arr(items)) + 177 * MAX_AGENTS
  {
    var entries := Revised(previous, desired);
    forall i | 0 <= i < |items|
      ensures entries[i].revision <= MAX_REVISION && DecodeAgent(items[i], false) == Some(entries[i].(revision := 0))
    {
      RevisedItems(previous, items, desired, i);
    }
    AgentsLength(items, entries);
  }

  /** The agents of a document, and what the document is longer than they are. */
  lemma SourceLength(source: Json) returns (items: seq<Json>)
    requires DecodeDesired(source).Some?
    ensures |items| <= MAX_AGENTS && All(items, (j: Json) => DecodeAgent(j, false)) == DecodeDesired(source)
    ensures Length(source) >= 11 + Length(Arr(items))
  {
    items := source.fields[FAgents].items;
    assert source.fields[FAgents] == Arr(items);
    MemberWithin(source, 2, 18);
  }

  /**
   What `apply` writes is at most 11328 bytes of numbers and defaults and 4096 retired identifiers
   longer than the document, so a document of 256 KiB never makes a catalogue that `load` refuses.
   */
  lemma WrittenFits(previous: Catalog, source: Json)
    requires Stable(previous) && DecodeDesired(source).Some? && Decide(previous, DecodeDesired(source).value).Write?
    ensures var n := Length(Encode(Next(previous, DecodeDesired(source).value)));
            n <= Length(source) + 285_817 && (Length(source) <= MAX_SOURCE ==> n <= MAX_STORED)
  {
    var desired := DecodeDesired(source).value;
    var items := SourceLength(source);
    EntriesLength(previous, items, desired);
    DecodedIsValid(source);
    WrittenIsValid(previous, desired);
    CatalogLength(Next(previous, desired));
  }

  lemma SameIsAdmitted(previous: Catalog, desired: seq<Agent>)
    requires Stable(previous) && SameDocument(previous, desired)
    ensures !Refused(previous, desired)
  {
    StableParts(previous);
    SameDropsNothing(previous, desired, |previous.entries|);
    assert |previous.retired| + 0 <= MAX_RETIRED;
    forall e | e in desired ensures e.id !in previous.retired && !Exhausted(previous, e) {
      var i :| 0 <= i < |desired| && desired[i] == e;
      SameIsNotRefused(previous, desired, i);
    }
  }

  /** Applying a document the catalogue already describes writes nothing, and nothing else does. */
  lemma KeepsIffSame(previous: Catalog, desired: seq<Agent>)
    requires Stable(previous)
    ensures Decide(previous, desired).Keep? <==> SameDocument(previous, desired)
  {
    if SameDocument(previous, desired) {
      SameIsAdmitted(previous, desired);
    }
  }

  /** Applying the same document again, right after it was written, writes nothing. */
  lemma ReapplyKeeps(previous: Catalog, desired: seq<Agent>)
    requires Stable(previous) && ValidEntries(desired) && Decide(previous, desired).Write?
    ensures Decide(Next(previous, desired), desired) == Keep
  {
    WrittenIsValid(previous, desired);
    KeepsIffSame(Next(previous, desired), desired);
  }

  // ------------------------------------------------------------------------------ histories

  predicate Active(c: Catalog, id: string) {
    exists a :: a in c.entries && a.id == id
  }

  predicate Known(c: Catalog, id: string) {
    Active(c, id) || id in c.retired
  }

  /** Where an agent of the next catalogue comes from: kept, revised, or new under an identifier never seen. */
  ghost predicate Descends(c: Catalog, x: Agent) {
    || x in c.entries
    || (exists o :: o in c.entries && o.id == x.id && x.revision == o.revision + 1)
    || (!Known(c, x.id) && x.revision == 1)
  }

  ghost predicate Follows(c: Catalog, n: Catalog) {
    && n.revision == c.revision + 1 && c.retired <= n.retired
    && (forall x :: x in n.entries ==> Descends(c, x))
    && (forall id :: Known(c, id) ==> Known(n, id))
  }

  lemma RevisedDescends(c: Catalog, e: Agent)
    requires e.id !in c.retired
    ensures Descends(c, e.(revision := RevisionOf(c, e)))
  {
    var found := Find(c.entries, e.id);
    if found.Some? && found.value.content == e.content {
      assert e.(revision := RevisionOf(c, e)) == found.value;
    }
  }

  lemma KnownStays(c: Catalog, desired: seq<Agent>, id: string)
    requires Known(c, id)
    ensures Known(Next(c, desired), id)
  {
    var n := Next(c, desired);
    if id !in c.retired {
      var a :| a in c.entries && a.id == id;
      var i :| 0 <= i < |c.entries| && c.entries[i] == a;
      assert Ids(c.entries)[i] == id;
      assert Ids(c.entries)[..|c.entries|] == Ids(c.entries);
      DroppedMembers(c.entries, |c.entries|, desired, id);
      var kept := Find(desired, id);
      if kept.Some? {
        var j :| 0 <= j < |desired| && desired[j] == kept.value;
        assert n.entries[j] in n.entries && n.entries[j].id == id;
      }
    }
  }

  lemma NextFollows(c: Catalog, desired: seq<Agent>)
    requires Decide(c, desired).Write?
    ensures Follows(c, Next(c, desired))
  {
    var n := Next(c, desired);
    forall x | x in n.entries ensures Descends(c, x) {
      var i :| 0 <= i < |desired| && n.entries[i] == x;
      assert desired[i] in desired;
      RevisedDescends(c, desired[i]);
    }
    forall id | Known(c, id) ensures Known(n, id) {
      KnownStays(c, desired, id);
    }
  }

  /** Whether `load` takes the stored text of a catalogue. */
  predicate Loadable(c: Catalog) {
    c.revision == 0 || Length(Encode(c)) <= MAX_STORED
  }

  /** Whether an `apply` that reads `c` writes. */
  predicate Writes(c: Catalog, source: Json) {
    DecodeDesired(source).Some? && Loadable(c) && Decide(c, DecodeDesired(source).value).Write?
  }

  /** The stored catalogue after an `apply` that read `seen`: the write is not compared with anything. */
  function Late(seen: Catalog, stored: Catalog, source: Json): Catalog {
    if Writes(seen, source) then Next(seen, DecodeDesired(source).value) else stored
  }

  /** The catalogue after one `apply` with no other at the same time. */
  function After(c: Catalog, source: Json): Catalog {
    Late(c, c, source)
  }

  /** Every catalogue of a sequence of `apply` calls, from none at all. */
  function History(sources: seq<Json>): (log: seq<Catalog>)
    ensures |log| == |sources| + 1
  {
    if sources == [] then [Catalog(0, [], [])]
    else
      var before := History(sources[..|sources| - 1]);
      before + [After(before[|before| - 1], sources[|sources| - 1])]
  }

  ghost predicate Chain(log: seq<Catalog>) {
    && (forall i :: 0 <= i < |log| ==> Stable(log[i]))
    && (forall i :: 0 < i < |log| ==> log[i] == log[i - 1] || Follows(log[i - 1], log[i]))
  }

  lemma AfterFollows(c: Catalog, source: Json)
    requires Stable(c)
    ensures Stable(After(c, source)) && (After(c, source) == c || Follows(c, After(c, source)))
  {
    var desired := DecodeDesired(source);
    if desired.Some? && Decide(c, desired.value).Write? {
      DecodedIsValid(source);
      WrittenIsValid(c, desired.value);
      NextFollows(c, desired.value);
    }
  }

  lemma ChainGrows(log: seq<Catalog>, n: Catalog)
    requires Chain(log) && log != [] && Stable(n) && (n == log[|log| - 1] || Follows(log[|log| - 1], n))
    ensures Chain(log + [n])
  {
    var more := log + [n];
    forall i | 0 < i < |more| ensures more[i] == more[i - 1] || Follows(more[i - 1], more[i]) {
      if i < |log| {
        assert more[i - 1] == log[i - 1] && more[i] == log[i];
      }
    }
  }

  lemma {:induction false} HistoryChains(sources: seq<Json>)
    ensures Chain(History(sources))
    decreases |sources|
  {
    if sources != [] {
      var front := sources[..|sources| - 1];
      HistoryChains(front);
      var before := History(front);
      var last := before[|before| - 1];
      AfterFollows(last, sources[|sources| - 1]);
      ChainGrows(before, After(last, sources[|sources| - 1]));
    }
  }

  /** From some catalogue on: known for ever, with larger revisions unless it is the same agent. */
  ghost predicate Persists(x: Agent, c: Catalog) {
    && Known(c, x.id)
    && forall y :: y in c.entries && y.id == x.id ==> y.revision >= x.revision && (y.revision == x.revision ==> y == x)
  }

  lemma {:induction false} AgentPersists(log: seq<Catalog>, i: nat, j: nat, x: Agent)
    requires Chain(log) && i <= j < |log| && x in log[i].entries
    ensures Persists(x, log[j])
    decreases j
  {
    if i == j {
      StableParts(log[i]);
      forall y | y in log[i].entries && y.id == x.id ensures y == x {
        var a :| 0 <= a < |log[i].entries| && log[i].entries[a] == x;
        var b :| 0 <= b < |log[i].entries| && log[i].entries[b] == y;
        DistinctIndex(Ids(log[i].entries), a, b);
      }
    } else {
      AgentPersists(log, i, j - 1, x);
      if log[j] != log[j - 1] {
        PersistsStep(x, log[j - 1], log[j]);
      }
    }
  }

  lemma PersistsStep(x: Agent, c: Catalog, n: Catalog)
    requires Persists(x, c) && Follows(c, n)
    ensures Persists(x, n)
  {
    forall y | y in n.entries && y.id == x.id
      ensures y.revision >= x.revision && (y.revision == x.revision ==> y == x)
    {
      assert Descends(c, y);
    }
  }

  lemma {:induction false} RetiredForEver(log: seq<Catalog>, i: nat, j: nat, id: string)
    requires Chain(log) && i <= j < |log| && id in log[i].retired
    ensures id in log[j].retired && !Active(log[j], id)
    decreases j
  {
    if i < j {
      RetiredForEver(log, i, j - 1, id);
      assert id in log[j].retired;
    }
    StableParts(log[j]);
    forall k | 0 <= k < |log[j].entries| ensures log[j].entries[k].id != id {
      assert Ids(log[j].entries)[k] in Ids(log[j].entries);
    }
  }

  lemma {:induction false} RevisionGrows(log: seq<Catalog>, i: nat, j: nat)
    requires Chain(log) && i <= j < |log|
    ensures log[i].revision <= log[j].revision
    decreases j
  {
    if i < j {
      RevisionGrows(log, i, j - 1);
    }
  }

  /** What a later catalogue keeps: revisions never decrease, one number has one content, the retired stay so. */
  ghost predicate Lasts(c: Catalog, n: Catalog) {
    && c.revision <= n.revision
    && (forall x, y :: x in c.entries && y in n.entries && x.id == y.id ==>
          x.revision <= y.revision && (x.revision == y.revision ==> x == y))
    && (forall id :: id in c.retired ==> id in n.retired && !Active(n, id))
  }

  /**
   Over every sequence of `apply` calls: an identifier and a revision denote one content for ever,
   revisions never decrease, retired identifiers never return.
   */
  lemma EveryHistory(sources: seq<Json>, i: nat, j: nat)
    requires i <= j <= |sources|
    ensures Lasts(History(sources)[i], History(sources)[j])
  {
    var log := History(sources);
    HistoryChains(sources);
    RevisionGrows(log, i, j);
    forall x, y | x in log[i].entries && y in log[j].entries && x.id == y.id
      ensures x.revision <= y.revision && (x.revision == y.revision ==> x == y)
    {
      AgentPersists(log, i, j, x);
    }
    forall id | id in log[i].retired ensures id in log[j].retired && !Active(log[j], id) {
      RetiredForEver(log, i, j, id);
    }
  }

  // ------------------------------------------------------------------------ the operation

  datatype Failure = InvalidDocument | InvalidStore | NotApplicable

  function Loaded(stored: Option<Json>): Option<Catalog> {
    if stored.None? then Some(Catalog(0, [], []))
    else if Length(stored.value) > MAX_STORED then None
    else DecodeStored(stored.value)
  }

  lemma LoadedStable(stored: Option<Json>)
    ensures Loaded(stored).Some? ==> Stable(Loaded(stored).value)
  {
    if stored.Some? {
      DecodedIsValid(stored.value);
    }
  }

  /** What the first loop has noticed after `n` agents. */
  ghost predicate Changed(previous: Catalog, desired: seq<Agent>, n: nat)
    requires n <= |desired|
  {
    || previous.revision == 0 || |desired| != |previous.entries|
    || exists j :: 0 <= j < n && Differs(previous, desired, j)
  }

  /** A stored catalogue is loaded as it was written exactly when its text is within the limit. */
  lemma StoredLoads(c: Catalog)
    requires Valid(c)
    ensures Loaded(Some(Encode(c))) == if Length(Encode(c)) <= MAX_STORED then Some(c) else None
  {
    EncodedDecodes(c);
  }

  /** First loop: numbers every desired agent, and notices whether anything is new, changed or moved. */
  method Number(previous: Catalog, desired: seq<Agent>) returns (ok: bool, entries: seq<Agent>, changed: bool)
    ensures ok <==> forall e :: e in desired ==> e.id !in previous.retired && !Exhausted(previous, e)
    ensures ok ==> entries == Revised(previous, desired)
    ensures ok ==> (changed <==> Changed(previous, desired, |desired|))
  {
    ok, entries, changed := true, [], previous.revision == 0 || |desired| != |previous.entries|;
    var i := 0;
    while i < |desired|
      invariant 0 <= i <= |desired|
      invariant ok && forall j :: 0 <= j < i ==> desired[j].id !in previous.retired && !Exhausted(previous, desired[j])
      invariant entries == Revised(previous, desired)[..i]
      invariant changed <==> Changed(previous, desired, i)
    {
      var entry := desired[i];
      assert entry in desired;
      ghost var before := changed;
      if entry.id in previous.retired { return false, [], false; }
      var found := Find(previous.entries, entry.id);
      if found.None? {
        entry := entry.(revision := 1);
        changed := true;
      } else if found.value.content == entry.content {
        entry := entry.(revision := found.value.revision);
      } else {
        if found.value.revision == MAX_REVISION { return false, [], false; }
        entry := entry.(revision := found.value.revision + 1);
        changed := true;
      }
      if i >= |previous.entries| || previous.entries[i].id != entry.id { changed := true; }
      entries := entries + [entry];
      assert changed <==> before || Differs(previous, desired, i);
      i := i + 1;
    }
  }

  /** What the second loop has retired after `i` of the stored agents. */
  ghost predicate Retiring(previous: Catalog, desired: seq<Agent>, i: nat, retired: seq<string>, changed: bool) {
    && i <= |previous.entries| && retired == previous.retired + Dropped(previous.entries, i, desired)
    && (changed <==> Dropped(previous.entries, i, desired) != []) && (changed ==> |retired| <= MAX_RETIRED)
  }

  lemma DroppedNext(entries: seq<Agent>, i: nat, desired: seq<Agent>)
    requires i < |entries|
    ensures Dropped(entries, i + 1, desired) ==
            Dropped(entries, i, desired) + if Find(desired, entries[i].id).None? then [entries[i].id] else []
  {
    assert Dropped(entries, i, desired) + [] == Dropped(entries, i, desired);
  }

  /** One agent of the second loop. */
  lemma RetiringNext(previous: Catalog, desired: seq<Agent>, i: nat, retired: seq<string>, changed: bool)
    requires Retiring(previous, desired, i, retired, changed) && i < |previous.entries|
    ensures var id := previous.entries[i].id;
            if Find(desired, id).Some? then Retiring(previous, desired, i + 1, retired, changed)
            else if |retired| < MAX_RETIRED then Retiring(previous, desired, i + 1, retired + [id], true)
            else |previous.retired| + |Dropped(previous.entries, |previous.entries|, desired)| > MAX_RETIRED
  {
    DroppedNext(previous.entries, i, desired);
    DroppedGrow(previous.entries, i + 1, desired);
    var before, id := Dropped(previous.entries, i, desired), previous.entries[i].id;
    assert previous.retired + before + [id] == previous.retired + (before + [id]);
  }

  /** Second loop: retires what the document no longer names. */
  method RetireGone(previous: Catalog, desired: seq<Agent>) returns (ok: bool, retired: seq<string>, changed: bool)
    ensures var gone := Dropped(previous.entries, |previous.entries|, desired);
            && (ok <==> gone == [] || |previous.retired| + |gone| <= MAX_RETIRED)
            && (ok ==> retired == previous.retired + gone && (changed <==> gone != []))
  {
    ok, retired, changed := true, previous.retired, false;
    assert previous.retired + [] == previous.retired;
    var i := 0;
    while i < |previous.entries|
      invariant ok && Retiring(previous, desired, i, retired, changed)
    {
      RetiringNext(previous, desired, i, retired, changed);
      if Find(desired, previous.entries[i].id).None? {
        if |retired| >= MAX_RETIRED {
          SomethingGone(previous, desired, i);
          return false, [], false;
        }
        retired := retired + [previous.entries[i].id];
        changed := true;
      }
      i := i + 1;
    }
  }

  lemma SomethingGone(previous: Catalog, desired: seq<Agent>, i: nat)
    requires i < |previous.entries| && Find(desired, previous.entries[i].id).None?
    ensures Dropped(previous.entries, |previous.entries|, desired) != []
  {
    DroppedGrow(previous.entries, i + 1, desired);
  }

  lemma {:induction false} DroppedGrow(entries: seq<Agent>, n: nat, desired: seq<Agent>)
    requires n <= |entries|
    ensures |Dropped(entries, n, desired)| <= |Dropped(entries, |entries|, desired)|
    decreases |entries| - n
  {
    if n < |entries| {
      DroppedGrow(entries, n + 1, desired);
    }
  }

  /** The trusted, serial import: one caller at a time reads and writes the stored document. */
  class DefinitionStore {
    var stored: Option<Json>

    constructor ()
      ensures stored == None
    {
      stored := None;
    }

    /** `size` is the length of the text that `source` was read from; JSON text is no shorter than its compact form. */
    method Apply(source: Json, size: nat) returns (r: Result<Catalog, Failure>)
      modifies this
      ensures size > MAX_SOURCE || DecodeDesired(source).None? ==> r == Err(InvalidDocument) && stored == old(stored)
      ensures size <= MAX_SOURCE && DecodeDesired(source).Some? && Loaded(old(stored)).None? ==>
                r == Err(InvalidStore) && stored == old(stored)
      ensures size <= MAX_SOURCE && DecodeDesired(source).Some? && Loaded(old(stored)).Some? ==>
                var previous := Loaded(old(stored)).value;
                match Decide(previous, DecodeDesired(source).value)
                case Refuse => r == Err(NotApplicable) && stored == old(stored)
                case Keep => r == Ok(previous) && stored == old(stored)
                case Write(next) =>
                  && r == Ok(next) && stored == Some(Encode(next))
                  && (Loaded(stored) == Some(next) <==> Length(Encode(next)) <= MAX_STORED)
                  && (Length(source) <= size ==> Loaded(stored) == Some(next))
    {
      if size > MAX_SOURCE { return Err(InvalidDocument); }
      var document := DecodeDesired(source);
      if document.None? { return Err(InvalidDocument); }
      var desired := document.value;
      var loaded := Loaded(stored);
      if loaded.None? { return Err(InvalidStore); }
      var previous := loaded.value;
      LoadedStable(stored);
      DecodedIsValid(source);
      var next, decision := Resolve(previous, desired);
      match decision {
        case Refuse => return Err(NotApplicable);
        case Keep => return Ok(previous);
        case Write(_) =>
          WrittenIsValid(previous, desired);
          WrittenFits(previous, source);
          stored := Some(Encode(next));
          return Ok(next);
      }
    }
  }

  /** What the two loops find out is what the decision rests on. */
  lemma FlagsDecide(previous: Catalog, desired: seq<Agent>)
    requires Stable(previous)
    ensures var gone := Dropped(previous.entries, |previous.entries|, desired);
            && |previous.retired| <= MAX_RETIRED
            && (SameDocument(previous, desired) <==>
                  && previous.revision > 0 && |desired| == |previous.entries| && gone == []
                  && forall i :: 0 <= i < |desired| ==> !Differs(previous, desired, i))
  {
    StableParts(previous);
    FlagMeansDifferent(previous, desired);
    if SameDocument(previous, desired) {
      SameDropsNothing(previous, desired, |previous.entries|);
    }
  }

  lemma RefusedMeans(previous: Catalog, desired: seq<Agent>, ok: bool)
    requires ok <==> forall e :: e in desired ==> e.id !in previous.retired && !Exhausted(previous, e)
    ensures Refused(previous, desired) <==>
              !ok || |previous.retired| + |Dropped(previous.entries, |previous.entries|, desired)| > MAX_RETIRED
  {
  }

  /** What the loops report, put together as the specification decides. */
  lemma ReportsDecide(previous: Catalog, desired: seq<Agent>, ok: bool, fits: bool, changed: bool)
    requires Stable(previous)
    requires ok <==> forall e :: e in desired ==> e.id !in previous.retired && !Exhausted(previous, e)
    requires var gone := Dropped(previous.entries, |previous.entries|, desired);
             fits <==> gone == [] || |previous.retired| + |gone| <= MAX_RETIRED
    requires changed <==> !SameDocument(previous, desired)
    ensures Decide(previous, desired) ==
            if !ok || !fits then Refuse
            else if !changed then Keep
            else if previous.revision == MAX_REVISION then Refuse
            else Write(Next(previous, desired))
  {
    StableParts(previous);
    RefusedMeans(previous, desired, ok);
  }

  /** Both loops and what follows from them. */
  method Resolve(previous: Catalog, desired: seq<Agent>) returns (next: Catalog, decision: Decision)
    requires Stable(previous)
    ensures decision == Decide(previous, desired)
    ensures decision.Write? ==> next == decision.next
  {
    next := previous;
    var ok, entries, changed := Number(previous, desired);
    var fits, retired, gone := RetireGone(previous, desired);
    FlagsDecide(previous, desired);
    ReportsDecide(previous, desired, ok, fits, !SameDocument(previous, desired));
    if !ok || !fits { return next, Refuse; }
    if !changed && !gone { return next, Keep; }
    if previous.revision == MAX_REVISION { return next, Refuse; }
    next := Catalog(previous.revision + 1, entries, retired);
    decision := Write(next);
  }

  // -------------------------------------------------------------------- racing applications

  /** One identifier and number for two contents. */
  ghost predicate Clash(a: Catalog, b: Catalog) {
    exists x, y ::
      x in a.entries && y in b.entries && x.id == y.id && x.revision == y.revision && x.content != y.content
  }

  /** The document changes the stored agent, or adds it. */
  predicate Changes(c: Catalog, x: Agent) {
    var found := Find(c.entries, x.id);
    found.Some? ==> x.content != found.value.content
  }

  /** The two documents disagree about an agent that the first changes. */
  ghost predicate Disagree(c: Catalog, d: seq<Agent>, e: seq<Agent>, x: Agent, y: Agent) {
    x in d && y in e && x.id == y.id && x.content != y.content && Changes(c, x)
  }

  /** The first document retires a stored agent that the second names. */
  ghost predicate Revives(c: Catalog, d: seq<Agent>, e: seq<Agent>, id: string) {
    id in Ids(c.entries) && Find(d, id).None? && Find(e, id).Some?
  }

  lemma RevisedMember(c: Catalog, d: seq<Agent>, x: Agent)
    requires x in d
    ensures x.(revision := RevisionOf(c, x)) in Revised(c, d)
  {
    var i :| 0 <= i < |d| && d[i] == x;
    assert Revised(c, d)[i] in Revised(c, d);
  }

  lemma RevisedFrom(c: Catalog, d: seq<Agent>, x: Agent) returns (o: Agent)
    requires x in Revised(c, d)
    ensures o in d && x == o.(revision := RevisionOf(c, o))
  {
    var i :| 0 <= i < |d| && Revised(c, d)[i] == x;
    o := d[i];
  }

  lemma AgentsLast(c: Catalog, d: seq<Agent>, e: seq<Agent>, x: Agent, y: Agent)
    requires x in Revised(c, d) && y in Revised(c, e) && x.id == y.id
    requires forall o, p :: !Disagree(c, d, e, o, p)
    ensures x.revision <= y.revision && (x.revision == y.revision ==> x == y)
  {
    var o := RevisedFrom(c, d, x);
    var p := RevisedFrom(c, e, y);
    assert !Disagree(c, d, e, o, p);
  }

  lemma DisagreementShows(c: Catalog, d: seq<Agent>, e: seq<Agent>, x: Agent, y: Agent)
    requires Disagree(c, d, e, x, y)
    ensures !Lasts(Next(c, d), Next(c, e))
  {
    RevisedMember(c, d, x);
    RevisedMember(c, e, y);
    var a, b := x.(revision := RevisionOf(c, x)), y.(revision := RevisionOf(c, y));
    assert a in Next(c, d).entries && b in Next(c, e).entries && a.content != b.content;
  }

  lemma RetiredNext(c: Catalog, d: seq<Agent>, id: string)
    ensures id in Next(c, d).retired <==> id in c.retired || (id in Ids(c.entries) && Find(d, id).None?)
  {
    assert Ids(c.entries)[..|c.entries|] == Ids(c.entries);
    DroppedMembers(c.entries, |c.entries|, d, id);
  }

  lemma ActiveNext(c: Catalog, e: seq<Agent>, id: string)
    ensures Active(Next(c, e), id) <==> Find(e, id).Some?
  {
    if x :| x in Next(c, e).entries && x.id == id {
      var o := RevisedFrom(c, e, x);
    }
    if Find(e, id).Some? {
      RevisedMember(c, e, Find(e, id).value);
    }
  }

  lemma RetirementLasts(c: Catalog, d: seq<Agent>, e: seq<Agent>, id: string)
    requires !Refused(c, e) && id in Next(c, d).retired
    ensures id in Next(c, e).retired && !Active(Next(c, e), id) <==> !Revives(c, d, e, id)
  {
    RetiredNext(c, d, id);
    RetiredNext(c, e, id);
    ActiveNext(c, e, id);
  }

  lemma NothingConflicts(c: Catalog, d: seq<Agent>, e: seq<Agent>)
    requires !Refused(c, e)
    requires (forall x, y :: !Disagree(c, d, e, x, y)) && (forall id :: !Revives(c, d, e, id))
    ensures Lasts(Next(c, d), Next(c, e))
  {
    forall x, y | x in Next(c, d).entries && y in Next(c, e).entries && x.id == y.id
      ensures x.revision <= y.revision && (x.revision == y.revision ==> x == y)
    {
      AgentsLast(c, d, e, x, y);
    }
    forall id | id in Next(c, d).retired ensures id in Next(c, e).retired && !Active(Next(c, e), id) {
      RetirementLasts(c, d, e, id);
    }
  }

  lemma RevivalShows(c: Catalog, d: seq<Agent>, e: seq<Agent>, id: string)
    requires !Refused(c, e) && Revives(c, d, e, id)
    ensures !Lasts(Next(c, d), Next(c, e))
  {
    RetiredNext(c, d, id);
    RetirementLasts(c, d, e, id);
  }

  /** Two catalogues written over the same one. */
  lemma WrittenTwice(c: Catalog, d: seq<Agent>, e: seq<Agent>)
    requires !Refused(c, e)
    ensures Lasts(Next(c, d), Next(c, e)) <==>
              !(exists x, y :: Disagree(c, d, e, x, y)) && !(exists id :: Revives(c, d, e, id))
  {
    if x, y :| Disagree(c, d, e, x, y) {
      DisagreementShows(c, d, e, x, y);
    } else if id :| Revives(c, d, e, id) {
      RevivalShows(c, d, e, id);
    } else {
      NothingConflicts(c, d, e);
    }
  }

  /** What is stored when two `apply` calls read the last catalogue of a history, and then both finish. */
  function Raced(sources: seq<Json>, s: Json, t: Json): (log: seq<Catalog>)
    ensures |log| == |sources| + 3
  {
    var log := History(sources);
    var c := log[|log| - 1];
    log + [After(c, s), Late(c, After(c, s), t)]
  }

  /** Both write, and the second contradicts what the first changed or names what the first retired. */
  ghost predicate Conflict(c: Catalog, s: Json, t: Json) {
    && Writes(c, s) && Writes(c, t)
    && var d, e := DecodeDesired(s).value, DecodeDesired(t).value;
       (exists x, y :: Disagree(c, d, e, x, y)) || (exists id :: Revives(c, d, e, id))
  }

  lemma HistorySnoc(sources: seq<Json>, s: Json)
    ensures var log := History(sources); History(sources + [s]) == log + [After(log[|log| - 1], s)]
  {
    var more := sources + [s];
    assert more[..|more| - 1] == sources;
  }

  /** The last to write in a race. */
  function Winner(sources: seq<Json>, s: Json, t: Json): Json {
    if Writes(History(sources)[|sources|], t) then t else s
  }

  /** Without its last catalogue a race is a history, and so it is without the one before. */
  lemma RaceIsHistories(sources: seq<Json>, s: Json, t: Json, i: nat)
    requires i <= |sources|
    ensures var log, n := Raced(sources, s, t), |sources|;
            var one, two := History(sources + [s]), History(sources + [Winner(sources, s, t)]);
            log[i] == one[i] == two[i] && log[n + 1] == one[n + 1] && log[n + 2] == two[n + 1]
  {
    HistorySnoc(sources, s);
    HistorySnoc(sources, Winner(sources, s, t));
  }

  /** Whatever the second call leaves stored still succeeds everything before the race, and itself. */
  lemma RaceSucceeds(sources: seq<Json>, s: Json, t: Json, i: nat)
    requires i <= |sources| || i == |sources| + 2
    ensures Lasts(Raced(sources, s, t)[i], Raced(sources, s, t)[|sources| + 2])
  {
    RaceIsHistories(sources, s, t, if i <= |sources| then i else 0);
    EveryHistory(sources + [Winner(sources, s, t)], if i <= |sources| then i else |sources| + 1, |sources| + 1);
  }

  /** So does what the first leaves. */
  lemma RaceBegins(sources: seq<Json>, s: Json, t: Json, i: nat, j: nat)
    requires i <= j <= |sources| + 1
    ensures Lasts(Raced(sources, s, t)[i], Raced(sources, s, t)[j])
  {
    RaceIsHistories(sources, s, t, if i <= |sources| then i else 0);
    RaceIsHistories(sources, s, t, if j <= |sources| then j else 0);
    EveryHistory(sources + [s], i, j);
  }

  /**
   `put_information` is not compared, so two applications that read the same catalogue may both
   write. What `EveryHistory` promises then holds of everything stored exactly when they do not conflict.
   */
  lemma RacingApplies(sources: seq<Json>, s: Json, t: Json)
    ensures var log := Raced(sources, s, t);
            (forall i, j :: 0 <= i <= j < |log| ==> Lasts(log[i], log[j]))
            <==> !Conflict(History(sources)[|sources|], s, t)
  {
    var log, n := Raced(sources, s, t), |sources| + 2;
    RacingPair(sources, s, t);
    if Lasts(log[n - 1], log[n]) {
      forall i, j | 0 <= i <= j < |log| ensures Lasts(log[i], log[j]) {
        if i != n - 1 || j != n {
          RaceOrdered(sources, s, t, i, j);
        }
      }
    }
  }

  /** Every pair but that of the two writes. */
  lemma RaceOrdered(sources: seq<Json>, s: Json, t: Json, i: nat, j: nat)
    requires i <= j <= |sources| + 2 && (i == |sources| + 1 ==> j == i)
    ensures Lasts(Raced(sources, s, t)[i], Raced(sources, s, t)[j])
  {
    if j <= |sources| + 1 {
      RaceBegins(sources, s, t, i, j);
    } else {
      RaceSucceeds(sources, s, t, i);
    }
  }

  /** Where both write, what they have written. */
  lemma BothWrite(c: Catalog, s: Json, t: Json)
    requires Writes(c, s) && Writes(c, t)
    ensures Lasts(After(c, s), Late(c, After(c, s), t)) <==> !Conflict(c, s, t)
  {
    WrittenTwice(c, DecodeDesired(s).value, DecodeDesired(t).value);
  }

  lemma RaceEnds(sources: seq<Json>, s: Json, t: Json)
    ensures var c, log := History(sources)[|sources|], Raced(sources, s, t);
            log[|sources|] == c && log[|sources| + 1] == After(c, s) && log[|sources| + 2] == Late(c, After(c, s), t)
  {
  }

  lemma SameWithoutWrite(sources: seq<Json>, s: Json, t: Json)
    ensures var c, log, n := History(sources)[|sources|], Raced(sources, s, t), |sources|;
            (!Writes(c, s) ==> log[n + 1] == log[n]) && (!Writes(c, t) ==> log[n + 2] == log[n + 1])
  {
    RaceEnds(sources, s, t);
  }

  /** Where only one of them writes, or none. */
  lemma OneWrites(sources: seq<Json>, s: Json, t: Json, log: seq<Catalog>, writes: bool, n: nat)
    requires log == Raced(sources, s, t) && n == |sources| + 2
    requires (!writes ==> log[n - 1] == log[n - 2]) && (writes ==> log[n] == log[n - 1])
    ensures Lasts(log[n - 1], log[n])
  {
    if writes {
      RaceBegins(sources, s, t, n - 1, n - 1);
    } else {
      RaceSucceeds(sources, s, t, n - 2);
    }
  }

  /** The two writes of a race. */
  lemma RacingPair(sources: seq<Json>, s: Json, t: Json)
    ensures Lasts(Raced(sources, s, t)[|sources| + 1], Raced(sources, s, t)[|sources| + 2])
            <==> !Conflict(History(sources)[|sources|], s, t)
  {
    var c := History(sources)[|sources|];
    if Writes(c, s) && Writes(c, t) {
      BothWrite(c, s, t);
      RaceEnds(sources, s, t);
    } else {
      SameWithoutWrite(sources, s, t);
      OneWrites(sources, s, t, Raced(sources, s, t), Writes(c, s), |sources| + 2);
    }
  }

  /** Two calls that read the same catalogue write one number for two contents. */
  ghost predicate NumberTwice(c: Catalog, s: Json, t: Json) {
    Writes(c, s) && Writes(c, t) && Clash(After(c, s), After(c, t))
  }

  /** Both documents change one agent, and they disagree about it. */
  ghost predicate Contend(c: Catalog, d: seq<Agent>, e: seq<Agent>) {
    exists x, y :: Disagree(c, d, e, x, y) && Changes(c, y)
  }

  lemma ClashFrom(c: Catalog, d: seq<Agent>, e: seq<Agent>, x: Agent, y: Agent)
    requires x in Next(c, d).entries && y in Next(c, e).entries && x.id == y.id
    requires x.revision == y.revision && x.content != y.content
    ensures Contend(c, d, e)
  {
    var o := RevisedFrom(c, d, x);
    var p := RevisedFrom(c, e, y);
    assert Disagree(c, d, e, o, p) && Changes(c, p);
  }

  lemma ClashBy(c: Catalog, d: seq<Agent>, e: seq<Agent>, x: Agent, y: Agent)
    requires Disagree(c, d, e, x, y) && Changes(c, y)
    ensures Clash(Next(c, d), Next(c, e))
  {
    RevisedMember(c, d, x);
    RevisedMember(c, e, y);
    assert x.(revision := RevisionOf(c, x)) in Next(c, d).entries;
    assert y.(revision := RevisionOf(c, y)) in Next(c, e).entries;
  }

  lemma ClashIff(c: Catalog, d: seq<Agent>, e: seq<Agent>)
    ensures Clash(Next(c, d), Next(c, e)) <==> Contend(c, d, e)
  {
    if Clash(Next(c, d), Next(c, e)) {
      var x, y :| x in Next(c, d).entries && y in Next(c, e).entries && x.id == y.id && x.revision == y.revision
        && x.content != y.content;
      ClashFrom(c, d, e, x, y);
    }
    if Contend(c, d, e) {
      var x, y :| Disagree(c, d, e, x, y) && Changes(c, y);
      ClashBy(c, d, e, x, y);
    }
  }

  /** They do exactly when both write, both change one agent, and they disagree about it. */
  lemma RacingNumbers(c: Catalog, s: Json, t: Json)
    ensures NumberTwice(c, s, t) <==>
              Writes(c, s) && Writes(c, t) && Contend(c, DecodeDesired(s).value, DecodeDesired(t).value)
  {
    if Writes(c, s) && Writes(c, t) {
      ClashIff(c, DecodeDesired(s).value, DecodeDesired(t).value);
    }
  }

  /** A document of one agent with nothing but its instructions. */
  function Document(id: string, instructions: string): Json {
    Obj(map[FAgents := Arr([Obj(map[FId := Str(id), FInstructions := Str(instructions)])])])
  }

  function Plain(id: string, instructions: string): Agent {
    Agent(id, 0, Content("", instructions, None, [], id, "", "all", false, false, ""))
  }

  lemma DocumentDecodes(id: string, instructions: string)
    requires Identifier(id, 64) && ValidText(id, 128, false) && ValidText(instructions, 32768, false)
    ensures DecodeDesired(Document(id, instructions)) == Some([Plain(id, instructions)])
  {
    var item := Obj(map[FId := Str(id), FInstructions := Str(instructions)]);
    var o := item.fields;
    assert DecodeContent(o, id) == Some(Plain(id, instructions).content);
    assert ValidContent(Plain(id, instructions).content);
    assert DecodeAgent(item, false) == Some(Plain(id, instructions));
    var items := Document(id, instructions).fields[FAgents].items;
    assert items == [item];
    var r := All(items, (j: Json) => DecodeAgent(j, false));
    assert r.value == [Plain(id, instructions)];
  }

  /** The first catalogue that a document of one agent makes. */
  lemma FirstWrite(instructions: string)
    requires ValidText(instructions, 32768, false)
    ensures After(Catalog(0, [], []), Document("a", instructions)) ==
            Catalog(1, [Plain("a", instructions).(revision := 1)], [])
    ensures Writes(Catalog(0, [], []), Document("a", instructions))
  {
    var empty, d := Catalog(0, [], []), [Plain("a", instructions)];
    DocumentDecodes("a", instructions);
    assert Revised(empty, d) == [Plain("a", instructions).(revision := 1)];
    assert Dropped(empty.entries, 0, d) == [];
  }

  /** Two documents that name one agent, applied at once to an empty store: revision 1 of it has two contents. */
  lemma RacingDocuments()
    ensures var log := Raced([], Document("a", "x"), Document("a", "y"));
            && log[1] == Catalog(1, [Plain("a", "x").(revision := 1)], [])
            && log[2] == Catalog(1, [Plain("a", "y").(revision := 1)], [])
  {
    FirstWrite("x");
    FirstWrite("y");
    RaceEnds([], Document("a", "x"), Document("a", "y"));
  }

  /** The document that names no agent. */
  function NoAgents(): Json {
    Obj(map[FAgents := Arr([])])
  }

  lemma NoAgentsDecode()
    ensures DecodeDesired(NoAgents()) == Some([])
  {
    var r := All([], (j: Json) => DecodeAgent(j, false));
    assert r.value == [];
  }

  /** The catalogue that holds one agent at its first revision. */
  function OneAgent(): Catalog {
    Catalog(1, [Plain("a", "x").(revision := 1)], [])
  }

  /** Where one call retires the only stored agent and the other revises it, it is active again. */
  lemma RacingRetirement()
    ensures var log := Raced([Document("a", "x")], NoAgents(), Document("a", "y"));
            && log[1] == Catalog(1, [Plain("a", "x").(revision := 1)], [])
            && log[2] == Catalog(2, [], ["a"])
            && log[3] == Catalog(2, [Plain("a", "y").(revision := 2)], [])
  {
    FirstHistory();
    RaceEnds([Document("a", "x")], NoAgents(), Document("a", "y"));
    FirstLoads();
    RetiresAgent();
    RevisesAgent(After(OneAgent(), NoAgents()));
  }

  lemma FirstHistory()
    ensures History([Document("a", "x")])[1] == OneAgent()
  {
    FirstWrite("x");
    HistorySnoc([], Document("a", "x"));
    assert [] + [Document("a", "x")] == [Document("a", "x")];
  }

  lemma FirstLoads()
    ensures Loadable(OneAgent())
  {
    FirstWrite("x");
    DocumentLength();
    WrittenFits(Catalog(0, [], []), Document("a", "x"));
  }

  lemma RetiresAgent()
    requires Loadable(OneAgent())
    ensures After(OneAgent(), NoAgents()) == Catalog(2, [], ["a"])
  {
    NoAgentsDecode();
    var c := OneAgent();
    assert Dropped(c.entries, 0, []) == [];
    assert Dropped(c.entries, 1, []) == ["a"];
    assert Revised(c, []) == [];
  }

  lemma RevisesAgent(stored: Catalog)
    requires Loadable(OneAgent())
    ensures Late(OneAgent(), stored, Document("a", "y")) == Catalog(2, [Plain("a", "y").(revision := 2)], [])
  {
    var c, d := OneAgent(), [Plain("a", "y")];
    DocumentDecodes("a", "y");
    RevisesOne(c, d);
  }

  lemma RevisesOne(c: Catalog, d: seq<Agent>)
    requires c == OneAgent() && d == [Plain("a", "y")]
    ensures Decide(c, d) == Write(Catalog(2, [Plain("a", "y").(revision := 2)], []))
  {
    assert Find(c.entries, "a") == Some(c.entries[0]);
    assert Find(d, "a").Some?;
    assert Dropped(c.entries, 0, d) == [];
    assert Dropped(c.entries, 1, d) == [];
    assert Revised(c, d) == [Plain("a", "y").(revision := 2)];
  }

  lemma FieldsDiffer(i: nat, k: nat)
    requires i < 18 && k < 18
    ensures FieldAt(i) == FieldAt(k) <==> i == k
  {
  }

  lemma MembersStep(j: Json, n: nat)
    requires j.Obj? && n < 18
    ensures MembersLength(j, n + 1) ==
            MembersLength(j, n) + if FieldAt(n) in j.fields then MemberLength(j, FieldAt(n)) else 0
  {
  }

  /** An object whose members are all among two. */
  lemma {:induction false} TwoMembers(j: Json, a: nat, b: nat, n: nat)
    requires j.Obj? && a < b < 18 && n <= 18 && j.fields.Keys <= {FieldAt(a), FieldAt(b)}
    ensures MembersLength(j, n) ==
            (if a < n then MemberLength(j, FieldAt(a)) else 0) + (if b < n then MemberLength(j, FieldAt(b)) else 0)
  {
    if n > 0 {
      TwoMembers(j, a, b, n - 1);
      MembersStep(j, n - 1);
      FieldsDiffer(n - 1, a);
      FieldsDiffer(n - 1, b);
      FieldsDiffer(a, b);
    }
  }

  lemma ObjectLength(j: Json, a: nat, b: nat)
    requires j.Obj? && a < b < 18 && j.fields.Keys <= {FieldAt(a), FieldAt(b)}
    ensures Length(j) == 1 + MemberLength(j, FieldAt(a)) + MemberLength(j, FieldAt(b))
  {
    TwoMembers(j, a, b, 18);
  }

  lemma LetterLength(j: Json, f: Field, letter: string)
    requires j.Obj? && f in j.fields && j.fields[f] == Str(letter) && |letter| == 1 && NameChar(letter[0])
    ensures MemberLength(j, f) == NameLength(f) + 7
  {
    PlainLength(letter);
  }

  lemma ItemLength(item: Json, a: string, x: string)
    requires item == Obj(map[FId := Str(a), FInstructions := Str(x)])
    requires |a| == |x| == 1 && NameChar(a[0]) && NameChar(x[0])
    ensures Length(item) == 29
  {
    LetterLength(item, FId, a);
    LetterLength(item, FInstructions, x);
    ObjectLength(item, 4, 6);
  }

  lemma ItemsLengths(items: Json)
    requires items.Arr? && |items.items| == 1
    ensures Length(items) == 2 + Length(items.items[0])
  {
    assert ItemsLength(items, 0) == 0;
  }

  lemma OnlyAgents(j: Json, items: Json)
    requires j == Obj(map[FAgents := items])
    ensures Length(j) == 11 + Length(items)
  {
    ObjectLength(j, 2, 4);
  }

  lemma DocumentLength()
    ensures Length(Document("a", "x")) <= MAX_SOURCE
  {
    var item := Obj(map[FId := Str("a"), FInstructions := Str("x")]);
    ItemLength(item, "a", "x");
    ItemsLengths(Arr([item]));
    OnlyAgents(Document("a", "x"), Arr([item]));
  }
}
