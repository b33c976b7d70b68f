/**
 Reusable permission grants of one session: a catalogue changed by owners' replies and revocations
 that compete through compare-and-swap retry loops.
 */
module PermissionGrants {
  import opened Common

  const MAX_REVISION := 9007199254740991
  const MAX_GRANTS := 256
  const ATTEMPTS := 8

  datatype Scope = Scope(workspace: string, policy: string, action: string, resource: string)

  /** The digest of a scope, of which only its injectivity is used. */
  datatype GrantId = Digest(scope: Scope)

  datatype Grant = Grant(id: GrantId, scope: Scope, created: int)

  datatype Catalog = Catalog(revision: nat, grants: seq<Grant>)

  datatype Failure = Exhausted | Full | Stale | Missing | Changed | Invalid | Corrupt | Decided | TooLate

  function Read(stored: Option<Catalog>): Catalog {
    if stored.Some? then stored.value else Catalog(0, [])
  }

  // ---------------------------------------------------------------- one catalogue

  function Index(grants: seq<Grant>, id: GrantId): (i: nat)
    ensures i <= |grants|
    ensures forall j :: 0 <= j < i ==> grants[j].id != id
    ensures i < |grants| ==> grants[i].id == id
  {
    if grants == [] || grants[0].id == id then 0 else 1 + Index(grants[1..], id)
  }

  /** What the decoder of a stored document insists on. */
  predicate Readable(c: Catalog) {
    && c.revision <= MAX_REVISION && |c.grants| <= MAX_GRANTS
    && forall i, j :: 0 <= i < j < |c.grants| ==> c.grants[i].id != c.grants[j].id
  }

  /** What the catalogue becomes when a reusable grant is approved; a scope already granted changes nothing. */
  function Approved(c: Catalog, scope: Scope, now: int): Result<Catalog, Failure> {
    if !Readable(c) then Err(Corrupt)
    else if c.revision == MAX_REVISION then Err(Exhausted)
    else if Index(c.grants, Digest(scope)) < |c.grants| then Ok(c)
    else if |c.grants| >= MAX_GRANTS then Err(Full)
    else Ok(Catalog(c.revision + 1, c.grants + [Grant(Digest(scope), scope, now)]))
  }

  /** What it becomes when a grant is revoked by a caller that saw revision `expected`. */
  function Revoked(c: Catalog, id: GrantId, expected: int): Result<Catalog, Failure> {
    var i := Index(c.grants, id);
    if !Readable(c) then Err(Corrupt)
    else if c.revision != expected then Err(Stale)
    else if i == |c.grants| then Err(Missing)
    else Ok(Catalog(c.revision + 1, c.grants[..i] + c.grants[i + 1..]))
  }

  function Allows(c: Catalog, scope: Scope): bool {
    exists g :: g in c.grants && g.scope == scope
  }

  ghost predicate WellFormed(c: Catalog) {
    Readable(c) && (forall g :: g in c.grants ==> g.id == Digest(g.scope))
  }

  ghost predicate Holds(c: Catalog, id: GrantId) {
    exists g :: g in c.grants && g.id == id
  }

  lemma IndexMeans(c: Catalog, id: GrantId)
    ensures Index(c.grants, id) < |c.grants| <==> Holds(c, id)
  {
    if Index(c.grants, id) < |c.grants| {
      assert c.grants[Index(c.grants, id)] in c.grants;
    }
  }

  /** When an approval is refused and as what, and what it adds: one grant behind those there are. */
  lemma ApprovedMeans(c: Catalog, scope: Scope, now: int)
    ensures var r, held := Approved(c, scope, now), Holds(c, Digest(scope));
            && (r == Err(Corrupt) <==> !Readable(c))
            && (r == Err(Exhausted) <==> Readable(c) && c.revision == MAX_REVISION)
            && (r == Err(Full) <==> Readable(c) && c.revision < MAX_REVISION && !held && |c.grants| == MAX_GRANTS)
            && (r.Ok? <==> Readable(c) && c.revision < MAX_REVISION && (held || |c.grants| < MAX_GRANTS))
            && (r.Ok? && held ==> r.value == c)
            && (r.Ok? && !held ==>
                  && r.value.revision == c.revision + 1 && c.grants <= r.value.grants
                  && |r.value.grants| == |c.grants| + 1
                  && r.value.grants[|c.grants|] == Grant(Digest(scope), scope, now))
  {
    IndexMeans(c, Digest(scope));
  }

  /** When a revocation is refused and as what, and what it takes away: one grant, the others in their order. */
  lemma RevokedMeans(c: Catalog, id: GrantId, expected: int)
    ensures var r := Revoked(c, id, expected);
            && (r == Err(Corrupt) <==> !Readable(c))
            && (r == Err(Stale) <==> Readable(c) && c.revision != expected)
            && (r == Err(Missing) <==> Readable(c) && c.revision == expected && !Holds(c, id))
            && (r.Ok? <==> Readable(c) && c.revision == expected && Holds(c, id))
            && (r.Ok? ==>
                  && r.value.revision == c.revision + 1
                  && exists i ::
                       && 0 <= i < |c.grants| && c.grants[i].id == id
                       && r.value.grants == c.grants[..i] + c.grants[i + 1..])
  {
    IndexMeans(c, id);
  }

  lemma ApprovedKeeps(c: Catalog, scope: Scope, now: int)
    requires WellFormed(c) && Approved(c, scope, now).Ok?
    ensures var n := Approved(c, scope, now).value;
            && WellFormed(n)
            && (forall s :: Allows(n, s) <==> Allows(c, s) || s == scope)
            && (n == c <==> Allows(c, scope))
            && n.revision == c.revision + (if Allows(c, scope) then 0 else 1)
  {
    var n := Approved(c, scope, now).value;
    var i := Index(c.grants, Digest(scope));
    if i < |c.grants| {
      assert c.grants[i] in c.grants;
      assert Allows(c, scope);
    } else {
      assert n.grants[|c.grants|].scope == scope;
      forall g | g in c.grants ensures g in n.grants && g.scope != scope {
        var j :| 0 <= j < |c.grants| && c.grants[j] == g;
        assert n.grants[j] == g;
      }
    }
  }

  lemma RevokedKeeps(c: Catalog, id: GrantId, expected: int)
    requires WellFormed(c) && expected < MAX_REVISION && Revoked(c, id, expected).Ok?
    ensures var n := Revoked(c, id, expected).value;
            && WellFormed(n)
            && (forall s :: Allows(n, s) <==> Allows(c, s) && Digest(s) != id)
            && c.revision == expected && n.revision == expected + 1 && Allows(c, id.scope)
  {
    var n := Revoked(c, id, expected).value;
    var i := Index(c.grants, id);
    assert c.grants[i] in c.grants;
    RemovedMembers(c, n, i);
  }

  lemma RemovedMembers(c: Catalog, n: Catalog, i: nat)
    requires WellFormed(c) && i < |c.grants| && n.grants == c.grants[..i] + c.grants[i + 1..]
    ensures forall g :: g in n.grants <==> g in c.grants && g != c.grants[i]
    ensures forall j, k :: 0 <= j < k < |n.grants| ==> n.grants[j].id != n.grants[k].id
  {
    forall g ensures g in n.grants <==> g in c.grants && g != c.grants[i] {
      if g in c.grants && g != c.grants[i] {
        var j :| 0 <= j < |c.grants| && c.grants[j] == g;
        assert g == n.grants[if j < i then j else j - 1];
      }
    }
  }

  // ---------------------------------------------------------------- committed operations

  datatype Entry = Grants(scope: Scope, now: int) | Revokes(id: GrantId, expected: int)

  function Apply(c: Catalog, e: Entry): Result<Catalog, Failure> {
    match e
    case Grants(scope, now) => Approved(c, scope, now)
    case Revokes(id, expected) =>
      if expected < 0 || expected >= MAX_REVISION then Err(Invalid) else Revoked(c, id, expected)
  }

  /** The operations of a log applied in order; one that fails is an error of the whole replay. */
  function Replay(log: seq<Entry>): Result<Catalog, Failure> {
    if log == [] then Ok(Catalog(0, []))
    else
      var before := Replay(log[..|log| - 1]);
      if before.Err? then before else Apply(before.value, log[|log| - 1])
  }

  /** Granted by some committed reply and by no later revocation taken back. */
  ghost predicate InForce(log: seq<Entry>, scope: Scope) {
    exists i :: 0 <= i < |log| && log[i].Grants? && log[i].scope == scope && Unrevoked(log, i, scope)
  }

  ghost predicate Unrevoked(log: seq<Entry>, i: nat, scope: Scope) {
    forall j :: i < j < |log| && log[j].Revokes? ==> log[j].id != Digest(scope)
  }

  lemma ApplyKeeps(c: Catalog, e: Entry)
    requires WellFormed(c) && Apply(c, e).Ok?
    ensures WellFormed(Apply(c, e).value) && c.revision <= Apply(c, e).value.revision
    ensures c.revision == Apply(c, e).value.revision ==> Apply(c, e).value == c
    ensures forall s :: Allows(Apply(c, e).value, s) <==>
              if e.Grants? then Allows(c, s) || s == e.scope else Allows(c, s) && e.id != Digest(s)
  {
    if e.Grants? {
      ApprovedKeeps(c, e.scope, e.now);
    } else {
      RevokedKeeps(c, e.id, e.expected);
    }
  }

  lemma InForceStep(log: seq<Entry>, e: Entry, scope: Scope)
    ensures InForce(log + [e], scope) <==>
              if e.Grants? then InForce(log, scope) || e.scope == scope
              else InForce(log, scope) && e.id != Digest(scope)
  {
    var n := log + [e];
    var last := |log|;
    if InForce(log, scope) {
      var i :| 0 <= i < |log| && log[i].Grants? && log[i].scope == scope && Unrevoked(log, i, scope);
      if e.Grants? || e.id != Digest(scope) {
        assert n[i] == log[i] && Unrevoked(n, i, scope);
      }
    }
    if e.Grants? && e.scope == scope {
      assert n[last] == e && Unrevoked(n, last, scope);
    }
    if InForce(n, scope) {
      var i :| 0 <= i < |n| && n[i].Grants? && n[i].scope == scope && Unrevoked(n, i, scope);
      if i < |log| {
        forall j | i < j < |log| && log[j].Revokes? ensures log[j].id != Digest(scope) {
          assert n[j] == log[j];
        }
        assert Unrevoked(log, i, scope);
        assert n[last] == e;
      }
    }
  }

  /** The catalogue allows exactly the scopes granted and not since revoked, under unique ids and the limit. */
  lemma {:induction false} ReplayMeans(log: seq<Entry>)
    requires Replay(log).Ok?
    ensures WellFormed(Replay(log).value)
    ensures forall s :: Allows(Replay(log).value, s) <==> InForce(log, s)
    decreases |log|
  {
    if log != [] {
      var front, e := log[..|log| - 1], log[|log| - 1];
      assert log == front + [e];
      ReplayMeans(front);
      ApplyKeeps(Replay(front).value, e);
      forall s ensures Allows(Replay(log).value, s) <==> InForce(log, s) {
        InForceStep(front, e, s);
      }
    }
  }

  lemma {:induction false} ReplayPrefix(log: seq<Entry>, i: nat)
    requires Replay(log).Ok? && i <= |log|
    ensures Replay(log[..i]).Ok? && Replay(log[..i]).value.revision <= Replay(log).value.revision
    ensures Replay(log[..i]).value.revision == Replay(log).value.revision ==>
              Replay(log[..i]).value == Replay(log).value
    decreases |log|
  {
    if i < |log| {
      var front := log[..|log| - 1];
      ReplayMeans(front);
      ApplyKeeps(Replay(front).value, log[|log| - 1]);
      ReplayPrefix(front, i);
      assert front[..i] == log[..i];
    } else {
      assert log[..i] == log;
    }
  }

  /** A catalogue revision identifies the catalogue, so a compare-and-swap cannot confuse two of them. */
  lemma SameRevisionSameCatalog(log: seq<Entry>, i: nat, j: nat)
    requires Replay(log).Ok? && i <= j <= |log|
    ensures Replay(log[..i]).Ok? && Replay(log[..j]).Ok?
    ensures Replay(log[..i]).value.revision == Replay(log[..j]).value.revision ==> Replay(log[..i]) == Replay(log[..j])
  {
    ReplayPrefix(log, j);
    ReplayPrefix(log[..j], i);
    assert log[..j][..i] == log[..i];
  }

  lemma ReplayAt(log: seq<Entry>, at: nat)
    requires Replay(log).Ok? && at < |log|
    ensures Replay(log[..at]).Ok? && Apply(Replay(log[..at]).value, log[at]).Ok?
  {
    ReplayPrefix(log, at + 1);
    var upto := log[..at + 1];
    assert upto[..at] == log[..at] && upto[at] == log[at];
  }

  /** A revocation that was committed found exactly the catalogue its caller had seen. */
  lemma RevokeActsOnRevisionSeen(log: seq<Entry>, seen: nat, at: nat)
    requires Replay(log).Ok? && seen <= at < |log|
    requires log[at].Revokes? && Replay(log[..seen]).Ok? && Replay(log[..seen]).value.revision == log[at].expected
    ensures Replay(log[..at]) == Replay(log[..seen]) && Allows(Replay(log[..seen]).value, log[at].id.scope)
  {
    ReplayAt(log, at);
    ReplayMeans(log[..at]);
    RevokedKeeps(Replay(log[..at]).value, log[at].id, log[at].expected);
    SameRevisionSameCatalog(log, seen, at);
  }

  // ------------------------------------------------------------------ competing clients

  datatype Status = Awaiting | Ready | Denied | Expired

  datatype Operation = Operation(scope: Scope, status: Status)

  /**
   A client inside a retry loop: `seen` is the document of this attempt, `since` the catalogue
   revision when the loop began.
   */
  datatype Phase =
    | Idle
    | Replying(op: nat, scope: Scope, attempt: nat, since: nat, seen: Option<Catalog>, now: int)
    | AgainReply(op: nat, scope: Scope, attempt: nat, since: nat)
    | Revoking(id: GrantId, expected: int, attempt: nat, seen: Option<Catalog>)
    | AgainRevoke(id: GrantId, expected: int, attempt: nat)

  /** `log` holds the committed replies and revocations in commit order. */
  datatype System = System(stored: Option<Catalog>, log: seq<Entry>, ops: map<nat, Operation>, clients: seq<Phase>)

  datatype Step =
    | Record(op: nat, scope: Scope)
    | Decide(op: nat, allow: bool)
    | StartReply(client: nat, op: nat, now: int)
    | StartRevoke(client: nat, id: GrantId, expected: int)
    | Reread(client: nat, now: int)
    | Commit(client: nat, expired: bool)
    | Stop(client: nat)

  function ReadForReply(s: System, op: nat, scope: Scope, attempt: nat, since: nat, now: int): Phase {
    if Approved(Read(s.stored), scope, now).Ok? then Replying(op, scope, attempt, since, s.stored, now) else Idle
  }

  function ReadForRevoke(s: System, id: GrantId, expected: int, attempt: nat): Phase {
    if Apply(Read(s.stored), Revokes(id, expected)).Ok? then Revoking(id, expected, attempt, s.stored) else Idle
  }

  /** The transaction of one attempt: the operation's state, then the comparison, then both writes. */
  function CommitReply(s: System, k: nat, p: Phase, expired: bool): System
    requires k < |s.clients| && p.Replying?
  {
    if p.op !in s.ops || s.ops[p.op].status != Awaiting then s.(clients := s.clients[k := Idle])
    else if expired then s.(ops := s.ops[p.op := s.ops[p.op].(status := Expired)], clients := s.clients[k := Idle])
    else if s.stored != p.seen then
      s.(clients := s.clients[k :=
        if p.attempt + 1 == ATTEMPTS then Idle else AgainReply(p.op, p.scope, p.attempt + 1, p.since)])
    else
      var next := Approved(Read(p.seen), p.scope, p.now);
      if next.Err? then s
      else s.(stored := Some(next.value), log := s.log + [Grants(p.scope, p.now)],
              ops := s.ops[p.op := s.ops[p.op].(status := Ready)], clients := s.clients[k := Idle])
  }

  function CommitRevoke(s: System, k: nat, p: Phase): System
    requires k < |s.clients| && p.Revoking?
  {
    if s.stored != p.seen then
      s.(clients := s.clients[k :=
        if p.attempt + 1 == ATTEMPTS then Idle else AgainRevoke(p.id, p.expected, p.attempt + 1)])
    else
      var next := Revoked(Read(p.seen), p.id, p.expected);
      if next.Err? then s
      else s.(stored := Some(next.value), log := s.log + [Revokes(p.id, p.expected)], clients := s.clients[k := Idle])
  }

  function Next(s: System, step: Step): System {
    match step
    case Record(op, scope) => if op in s.ops then s else s.(ops := s.ops[op := Operation(scope, Awaiting)])
    case Decide(op, allow) =>
      if op in s.ops && s.ops[op].status == Awaiting then
        s.(ops := s.ops[op := s.ops[op].(status := if allow then Ready else Denied)]) else s
    case StartReply(k, op, now) =>
      if k < |s.clients| && s.clients[k] == Idle && op in s.ops
      then s.(clients := s.clients[k := ReadForReply(s, op, s.ops[op].scope, 0, Read(s.stored).revision, now)]) else s
    case StartRevoke(k, id, expected) =>
      if k < |s.clients| && s.clients[k] == Idle then s.(clients := s.clients[k := ReadForRevoke(s, id, expected, 0)])
      else s
    case Reread(k, now) =>
      if k >= |s.clients| then s
      else (match s.clients[k]
            case AgainReply(op, scope, attempt, since) =>
              s.(clients := s.clients[k := ReadForReply(s, op, scope, attempt, since, now)])
            case AgainRevoke(id, expected, attempt) =>
              s.(clients := s.clients[k := ReadForRevoke(s, id, expected, attempt)])
            case _ => s)
    case Commit(k, expired) =>
      if k >= |s.clients| then s
      else if s.clients[k].Replying? then CommitReply(s, k, s.clients[k], expired)
      else if s.clients[k].Revoking? then CommitRevoke(s, k, s.clients[k])
      else s
    case Stop(k) => if k < |s.clients| then s.(clients := s.clients[k := Idle]) else s
  }

  function Run(s: System, steps: seq<Step>): System
    decreases |steps|
  {
    if steps == [] then s else Run(Next(s, steps[0]), steps[1..])
  }

  ghost predicate Recorded(s: System) {
    Replay(s.log) == Ok(Read(s.stored)) && (s.stored.Some? ==> s.stored.value.revision >= 1)
  }

  /** A document read earlier is the stored one, or has a smaller revision. */
  ghost predicate Earlier(seen: Option<Catalog>, stored: Option<Catalog>) {
    seen == stored || Read(seen).revision < Read(stored).revision
  }

  ghost predicate PhaseSound(stored: Option<Catalog>, p: Phase) {
    match p
    case Idle => true
    case Replying(_, scope, attempt, since, seen, now) =>
      attempt < ATTEMPTS && Earlier(seen, stored) && since + attempt <= Read(seen).revision
        && Approved(Read(seen), scope, now).Ok?
    case AgainReply(_, _, attempt, since) => attempt < ATTEMPTS && since + attempt <= Read(stored).revision
    case Revoking(id, expected, attempt, seen) =>
      attempt == 0 && Earlier(seen, stored) && Apply(Read(seen), Revokes(id, expected)).Ok?
    case AgainRevoke(_, expected, _) => expected < Read(stored).revision
  }

  ghost predicate Invariant(s: System) {
    Recorded(s) && forall k :: 0 <= k < |s.clients| ==> PhaseSound(s.stored, s.clients[k])
  }

  /** The stored document advances by one committed operation. */
  lemma RecordedGrows(s: System, e: Entry, n: System)
    requires Recorded(s) && Apply(Read(s.stored), e).Ok?
    requires n.log == s.log + [e] && n.stored == Some(Apply(Read(s.stored), e).value)
    ensures Recorded(n) && Earlier(s.stored, n.stored)
  {
    ReplayMeans(s.log);
    ApplyKeeps(Read(s.stored), e);
    assert n.log[..|n.log| - 1] == s.log;
    if s.stored.None? && e.Grants? {
      assert n.stored.value.revision == 1;
    }
  }

  lemma PhaseKept(before: Option<Catalog>, stored: Option<Catalog>, p: Phase)
    requires PhaseSound(before, p) && Earlier(before, stored)
    ensures PhaseSound(stored, p)
  {
  }

  lemma Grown(s: System, k: nat, e: Entry, n: System)
    requires Invariant(s) && k < |s.clients| && Apply(Read(s.stored), e).Ok?
    requires n.log == s.log + [e] && n.stored == Some(Apply(Read(s.stored), e).value)
    requires n.clients == s.clients[k := Idle]
    ensures Invariant(n)
  {
    RecordedGrows(s, e, n);
    forall i | 0 <= i < |n.clients| ensures PhaseSound(n.stored, n.clients[i]) {
      if i != k {
        PhaseKept(s.stored, n.stored, s.clients[i]);
      }
    }
  }

  lemma OneClient(s: System, k: nat, p: Phase, n: System)
    requires Invariant(s) && k < |s.clients| && PhaseSound(s.stored, p)
    requires n.log == s.log && n.stored == s.stored && n.clients == s.clients[k := p]
    ensures Invariant(n)
  {
  }

  lemma CommitKeeps(s: System, k: nat, expired: bool)
    requires Invariant(s)
    ensures Invariant(Next(s, Commit(k, expired)))
  {
    var n := Next(s, Commit(k, expired));
    if k < |s.clients| {
      var p := s.clients[k];
      assert PhaseSound(s.stored, p);
      if p.Replying? {
        if n.log == s.log {
          if n != s {
            OneClient(s, k, n.clients[k], n);
          }
        } else {
          Grown(s, k, Grants(p.scope, p.now), n);
        }
      } else if p.Revoking? {
        if n.log == s.log {
          OneClient(s, k, n.clients[k], n);
        } else {
          Grown(s, k, Revokes(p.id, p.expected), n);
        }
      }
    }
  }

  lemma StepKeeps(s: System, step: Step)
    requires Invariant(s)
    ensures Invariant(Next(s, step))
  {
    var n := Next(s, step);
    match step {
      case Commit(k, expired) => CommitKeeps(s, k, expired);
      case Record(_, _) =>
      case Decide(_, _) =>
      case StartReply(k, _, _) => if n != s { OneClient(s, k, n.clients[k], n); }
      case StartRevoke(k, _, _) => if n != s { OneClient(s, k, n.clients[k], n); }
      case Reread(k, _) =>
        if n != s {
          assert PhaseSound(s.stored, s.clients[k]);
          OneClient(s, k, n.clients[k], n);
        }
      case Stop(k) => if n != s { OneClient(s, k, Idle, n); }
    }
  }

  lemma {:induction false} InvariantAlways(s: System, steps: seq<Step>)
    requires Invariant(s)
    ensures Invariant(Run(s, steps))
    decreases |steps|
  {
    if steps != [] {
      StepKeeps(s, steps[0]);
      InvariantAlways(Next(s, steps[0]), steps[1..]);
    }
  }

  ghost predicate Initial(s: System) {
    s.stored == None && s.log == [] && forall k :: 0 <= k < |s.clients| ==> s.clients[k] == Idle
  }

  /** The catalogue is the replay of the committed operations, and allows what they leave in force. */
  lemma EveryRun(s: System, steps: seq<Step>)
    requires Initial(s)
    ensures var e := Run(s, steps);
            && Replay(e.log) == Ok(Read(e.stored))
            && WellFormed(Read(e.stored))
            && forall scope :: Allows(Read(e.stored), scope) <==> InForce(e.log, scope)
  {
    assert Invariant(s);
    InvariantAlways(s, steps);
    ReplayMeans(Run(s, steps).log);
  }

  /**
   The transaction of a reply commits exactly when its operation awaits a decision, has not expired and
   the document is the one read; then the grant and the operation change together, otherwise neither
   does, but for an operation that expires.
   */
  lemma CommitMeans(s: System, k: nat, expired: bool)
    requires Invariant(s) && k < |s.clients| && s.clients[k].Replying?
    ensures var p, n := s.clients[k], Next(s, Commit(k, expired));
            var awaits := p.op in s.ops && s.ops[p.op].status == Awaiting;
            && (n.log != s.log <==> awaits && !expired && s.stored == p.seen)
            && (if n.log != s.log then
                  && n.log == s.log + [Grants(p.scope, p.now)]
                  && Ok(Read(n.stored)) == Approved(Read(s.stored), p.scope, p.now)
                  && n.ops == s.ops[p.op := s.ops[p.op].(status := Ready)]
                else
                  && n.stored == s.stored
                  && n.ops == if awaits && expired then s.ops[p.op := s.ops[p.op].(status := Expired)] else s.ops)
            && (n.clients[k] != Idle <==> awaits && !expired && s.stored != p.seen && p.attempt + 1 < ATTEMPTS)
  {
    assert PhaseSound(s.stored, s.clients[k]);
    var p := s.clients[k];
    assert |s.log + [Grants(p.scope, p.now)]| != |s.log|;
  }

  /** A revocation commits exactly when the document is still the one read, and decides no operation. */
  lemma RevocationMeans(s: System, k: nat, expired: bool)
    requires Invariant(s) && k < |s.clients| && s.clients[k].Revoking?
    ensures var p, n := s.clients[k], Next(s, Commit(k, expired));
            && (n.log != s.log <==> s.stored == p.seen) && n.ops == s.ops
            && (if n.log != s.log then
                  && n.log == s.log + [Revokes(p.id, p.expected)]
                  && Ok(Read(n.stored)) == Revoked(Read(s.stored), p.id, p.expected)
                else n.stored == s.stored)
  {
    assert PhaseSound(s.stored, s.clients[k]);
    var p := s.clients[k];
    assert |s.log + [Revokes(p.id, p.expected)]| != |s.log|;
  }

  /** A reply that nothing comes between commits: its scope is granted and its operation decided. */
  lemma ReplyGoesThrough(s: System, k: nat, op: nat, now: int)
    requires Invariant(s) && k < |s.clients| && s.clients[k] == Idle
    requires op in s.ops && s.ops[op].status == Awaiting && Approved(Read(s.stored), s.ops[op].scope, now).Ok?
    ensures var n := Next(Next(s, StartReply(k, op, now)), Commit(k, false));
            && n.log == s.log + [Grants(s.ops[op].scope, now)] && n.ops[op].status == Ready
            && Allows(Read(n.stored), s.ops[op].scope) && n.clients[k] == Idle
  {
    ReplayMeans(s.log);
    ApprovedKeeps(Read(s.stored), s.ops[op].scope, now);
    var scope, since := s.ops[op].scope, Read(s.stored).revision;
    var a := Next(s, StartReply(k, op, now));
    assert a.clients[k] == Replying(op, scope, 0, since, s.stored, now) && a.stored == s.stored && a.log == s.log;
  }

  lemma RevokedForbids(c: Catalog, id: GrantId, expected: int)
    requires WellFormed(c) && expected < MAX_REVISION && Revoked(c, id, expected).Ok?
    ensures !Allows(Revoked(c, id, expected).value, id.scope)
  {
    RevokedKeeps(c, id, expected);
    assert Digest(id.scope) == id;
  }

  lemma RevocationCommits(s: System, k: nat, id: GrantId, expected: int)
    requires k < |s.clients| && s.clients[k] == Idle && Apply(Read(s.stored), Revokes(id, expected)).Ok?
    ensures var n := Next(Next(s, StartRevoke(k, id, expected)), Commit(k, false));
            && n.log == s.log + [Revokes(id, expected)] && n.clients[k] == Idle
            && n.stored == Some(Revoked(Read(s.stored), id, expected).value)
  {
    var a := Next(s, StartRevoke(k, id, expected));
    assert a.clients[k] == Revoking(id, expected, 0, s.stored) && a.stored == s.stored && a.log == s.log;
  }

  /** So does a revocation. */
  lemma RevocationGoesThrough(s: System, k: nat, id: GrantId, expected: int)
    requires Invariant(s) && k < |s.clients| && s.clients[k] == Idle
    requires Apply(Read(s.stored), Revokes(id, expected)).Ok?
    ensures var n := Next(Next(s, StartRevoke(k, id, expected)), Commit(k, false));
            && n.log == s.log + [Revokes(id, expected)] && !Allows(Read(n.stored), id.scope) && n.clients[k] == Idle
  {
    ReplayMeans(s.log);
    RevocationCommits(s, k, id, expected);
    RevokedForbids(Read(s.stored), id, expected);
  }

  lemma DecidedStays(s: System, step: Step, op: nat)
    requires op in s.ops && s.ops[op].status != Awaiting
    ensures op in Next(s, step).ops && Next(s, step).ops[op] == s.ops[op]
  {
  }

  /** A decided operation stays as it was decided, whatever is replied or revoked afterwards. */
  lemma {:induction false} DecidedForEver(s: System, steps: seq<Step>, op: nat)
    requires op in s.ops && s.ops[op].status != Awaiting
    ensures op in Run(s, steps).ops && Run(s, steps).ops[op] == s.ops[op]
    decreases |steps|
  {
    if steps != [] {
      DecidedStays(s, steps[0], op);
      DecidedForEver(Next(s, steps[0]), steps[1..], op);
    }
  }

  /** A reply that gives up after its eighth attempt has seen at least eight changes by others. */
  lemma GivingUpMeansEightChanges(s: System, k: nat)
    requires Invariant(s) && k < |s.clients| && s.clients[k].Replying? && s.clients[k].attempt + 1 == ATTEMPTS
    requires s.stored != s.clients[k].seen
    ensures Read(s.stored).revision >= s.clients[k].since + ATTEMPTS
  {
    assert PhaseSound(s.stored, s.clients[k]);
  }

  /** The retry loop of a revocation never compares twice: a lost comparison makes its revision stale. */
  lemma RevokeComparesOnce(s: System, k: nat, now: int)
    requires Invariant(s) && k < |s.clients| && s.clients[k].AgainRevoke?
    ensures Next(s, Reread(k, now)).clients[k] == Idle
  {
    assert PhaseSound(s.stored, s.clients[k]);
  }

  // ----------------------------------------------------------------------- the retry loops

  /** What happens between read and transaction of one attempt: a rival's write, a decision, the expiry. */
  datatype Between = Between(rival: Option<Catalog>, decided: bool, expired: bool)

  /** The documents rivals store, attempt by attempt. */
  function Rivals(attempts: seq<Between>): (r: seq<Option<Catalog>>)
    ensures |r| == |attempts| && forall i :: 0 <= i < |r| ==> r[i] == attempts[i].rival
  {
    seq(|attempts|, i requires 0 <= i < |attempts| => attempts[i].rival)
  }

  class Session {
    var stored: Option<Catalog>
    var status: Status

    constructor (status: Status)
      ensures stored == None && this.status == status
    {
      stored, this.status := None, status;
    }

    /** Compares and stores; `rival` is what another process stored since the caller's read, if anything. */
    method Compare(next: Catalog, expected: Option<Catalog>, rival: Option<Catalog>) returns (ok: bool)
      modifies this`stored
      ensures var present := if rival.Some? then rival else old(stored);
              ok == (present == expected) && stored == if ok then Some(next) else present
    {
      if rival.Some? { stored := rival; }
      ok := stored == expected;
      if ok { stored := Some(next); }
    }

    /** The transaction of one attempt: the operation's state, its expiry, then the comparison and both writes. */
    method Decide(next: Catalog, seen: Option<Catalog>, between: Between) returns (r: Option<Failure>)
      modifies this
      ensures var present := if between.rival.Some? then between.rival else old(stored);
              if between.decided || old(status) != Awaiting then
                r == Some(Decided) && stored == present && status == old(status)
              else if between.expired then r == Some(TooLate) && stored == present && status == Expired
              else if present != seen then r == Some(Changed) && stored == present && status == old(status)
              else r == None && stored == Some(next) && status == Ready
    {
      var ok;
      if between.decided || status != Awaiting {
        if between.rival.Some? { stored := between.rival; }
        return Some(Decided);
      }
      if between.expired {
        if between.rival.Some? { stored := between.rival; }
        status := Expired;
        return Some(TooLate);
      }
      ok := Compare(next, seen, between.rival);
      if !ok { return Some(Changed); }
      status := Ready;
      r := None;
    }

    /** The retry loop of a reusable reply: only a lost comparison is tried again. */
    method Reply(scope: Scope, clock: seq<int>, attempts: seq<Between>) returns (r: Result<Catalog, Failure>)
      requires |clock| == ATTEMPTS && |attempts| == ATTEMPTS
      modifies this
      ensures exists i ::
                && 0 <= i <= ATTEMPTS && AllLost(old(stored), Rivals(attempts), i)
                && Undecided(old(status), attempts, i)
                && ReplyEnds(old(stored), old(status), scope, clock, attempts, i, stored, status, r)
    {
      var attempt := 0;
      while attempt < ATTEMPTS
        invariant 0 <= attempt <= ATTEMPTS && status == old(status)
        invariant AllLost(old(stored), Rivals(attempts), attempt) && Undecided(old(status), attempts, attempt)
        invariant stored == View(old(stored), Rivals(attempts), attempt)
      {
        var seen := stored;
        var next := Approved(Read(seen), scope, clock[attempt]);
        if next.Err? {
          assert ReplyEnds(old(stored), old(status), scope, clock, attempts, attempt, stored, status, next);
          return next;
        }
        var failure := Decide(next.value, seen, attempts[attempt]);
        if failure != Some(Changed) {
          r := if failure.None? then next else Err(failure.value);
          assert ReplyEnds(old(stored), old(status), scope, clock, attempts, attempt, stored, status, r);
          return;
        }
        attempt := attempt + 1;
      }
      r := Err(Changed);
    }

    method Revoke(id: GrantId, expected: int, rivals: seq<Option<Catalog>>) returns (r: Result<Catalog, Failure>)
      requires |rivals| == ATTEMPTS
      modifies this`stored
      ensures exists i ::
                && 0 <= i <= ATTEMPTS && AllLost(old(stored), rivals, i)
                && RevokeEnds(old(stored), id, expected, rivals, i, stored, r)
    {
      if expected < 0 || expected >= MAX_REVISION {
        assert RevokeEnds(old(stored), id, expected, rivals, 0, stored, Err(Invalid));
        return Err(Invalid);
      }
      var attempt := 0;
      while attempt < ATTEMPTS
        invariant 0 <= attempt <= ATTEMPTS
        invariant AllLost(old(stored), rivals, attempt) && stored == View(old(stored), rivals, attempt)
      {
        var seen := stored;
        var next := Revoked(Read(seen), id, expected);
        if next.Err? {
          assert RevokeEnds(old(stored), id, expected, rivals, attempt, stored, next);
          return next;
        }
        var ok := Compare(next.value, seen, rivals[attempt]);
        if ok {
          assert RevokeEnds(old(stored), id, expected, rivals, attempt, stored, next);
          return next;
        }
        attempt := attempt + 1;
      }
      r := Err(Changed);
    }
  }

  /** The document found by attempt `i` when every attempt before it lost its comparison. */
  function View(first: Option<Catalog>, rivals: seq<Option<Catalog>>, i: nat): Option<Catalog>
    requires i <= |rivals|
  {
    if i == 0 then first else rivals[i - 1]
  }

  ghost predicate Lost(first: Option<Catalog>, rivals: seq<Option<Catalog>>, i: nat)
    requires i < |rivals|
  {
    rivals[i].Some? && rivals[i] != View(first, rivals, i)
  }

  ghost predicate AllLost(first: Option<Catalog>, rivals: seq<Option<Catalog>>, n: nat)
    requires n <= |rivals|
  {
    forall j :: 0 <= j < n ==> Lost(first, rivals, j)
  }

  /** The operation still awaits its decision at each of the first `n` attempts. */
  ghost predicate Undecided(status: Status, attempts: seq<Between>, n: nat)
    requires n <= |attempts|
  {
    n > 0 ==> status == Awaiting && forall j :: 0 <= j < n ==> !attempts[j].decided && !attempts[j].expired
  }

  /** What a transaction finds stored: the rival's document, or the one read. */
  function Present(first: Option<Catalog>, rivals: seq<Option<Catalog>>, i: nat): Option<Catalog>
    requires i < |rivals|
  {
    if rivals[i].Some? then rivals[i] else View(first, rivals, i)
  }

  /**
   A reply ends at attempt `i` with an error on what it read, with a decision or expiry that came
   first, with a commit of catalogue and operation on what it read, or after the last attempt.
   */
  ghost predicate ReplyEnds(first: Option<Catalog>, before: Status, scope: Scope, clock: seq<int>,
                            attempts: seq<Between>, i: nat,
                            stored: Option<Catalog>, status: Status, r: Result<Catalog, Failure>)
    requires |clock| == ATTEMPTS && |attempts| == ATTEMPTS && i <= ATTEMPTS
  {
    var rivals := Rivals(attempts);
    if i == ATTEMPTS then r == Err(Changed) && stored == View(first, rivals, i) && status == before
    else
      var next := Approved(Read(View(first, rivals, i)), scope, clock[i]);
      if next.Err? then r == next && stored == View(first, rivals, i) && status == before
      else if attempts[i].decided || before != Awaiting then
        r == Err(Decided) && stored == Present(first, rivals, i) && status == before
      else if attempts[i].expired then r == Err(TooLate) && stored == Present(first, rivals, i) && status == Expired
      else r == next && !Lost(first, rivals, i) && stored == Some(next.value) && status == Ready
  }

  ghost predicate RevokeEnds(first: Option<Catalog>, id: GrantId, expected: int, rivals: seq<Option<Catalog>>, i: nat,
                             stored: Option<Catalog>, r: Result<Catalog, Failure>)
    requires |rivals| == ATTEMPTS && i <= ATTEMPTS
  {
    if i == ATTEMPTS then r == Err(Changed) && stored == View(first, rivals, i)
    else
      && r == Apply(Read(View(first, rivals, i)), Revokes(id, expected))
      && (if r.Ok? then !Lost(first, rivals, i) && stored == Some(r.value) else stored == View(first, rivals, i))
  }
}
