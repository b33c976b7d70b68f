/**
 The documents of the catalogue of named agents: what a valid catalogue is, how it is written and
 read, and how long it is when written.
 */
module DefinitionDocument {
  import opened Common
  import opened Arithmetic

  const MAX_REVISION := 9007199254740991
  const MAX_AGENTS := 64
  const MAX_RETIRED := 4096
  const MAX_TOOLS := 64
  const MAX_RULES := 128
  const MAX_SOURCE := 262144
  const MAX_STORED := 1048576

  datatype Rule = Rule(action: string, resource: string, effect: string)

  /** Everything about an agent that its revision numbers. */
  datatype Content = Content(model: string, instructions: string, tools: Option<seq<string>>, permissions: seq<Rule>,
                             name: string,
                             description: string, mode: string, hidden: bool, isDefault: bool, placement: string)

  datatype Agent = Agent(id: string, revision: nat, content: Content)

  datatype Catalog = Catalog(revision: nat, entries: seq<Agent>, retired: seq<string>)

  // -------------------------------------------------------------------------- validity

  predicate ValidText(s: string, limit: nat, empty: bool) {
    (empty || s != "") && |s| <= limit && '\0' !in s
  }

  predicate NameChar(c: char) {
    'a' <= c <= 'z' || 'A' <= c <= 'Z' || '0' <= c <= '9' || c == '_' || c == '.' || c == '-'
  }

  predicate Identifier(s: string, limit: nat) {
    0 < |s| <= limit && forall i :: 0 <= i < |s| ==> NameChar(s[i])
  }

  /** Some component between slashes, from `start` on, is two dots. */
  predicate HasParent(s: string, start: nat, end: nat)
    requires start <= end <= |s|
    decreases |s| - end
  {
    if end == |s| then s[start..end] == ".."
    else if s[end] == '/' then s[start..end] == ".." || HasParent(s, end + 1, end + 1)
    else HasParent(s, start, end + 1)
  }

  predicate ValidRule(r: Rule) {
    && 0 < |r.action| <= 128 && (forall i :: 0 <= i < |r.action| ==> NameChar(r.action[i]) || r.action[i] == '*')
    && 0 < |r.resource| <= 1024 && '\0' !in r.resource && ':' !in r.resource && '\\' !in r.resource
      && r.resource[0] != '/'
    && !HasParent(r.resource, 0, 0)
    && (r.effect == "deny" || r.effect == "allow" || r.effect == "ask")
  }

  predicate Distinct(names: seq<string>) {
    forall i, j :: 0 <= i < j < |names| ==> names[i] != names[j]
  }

  predicate ValidTools(tools: Option<seq<string>>) {
    tools.Some? ==> |tools.value| <= MAX_TOOLS && Distinct(tools.value) && forall t :: t in tools.value ==>
      Identifier(t, 128)
  }

  predicate ValidMode(c: Content) {
    && (c.mode == "all" || c.mode == "primary" || c.mode == "subagent")
    && (c.placement == "" || c.placement == "thread" || (c.placement == "process" && c.mode == "primary"))
    && (c.isDefault ==> !c.hidden && c.mode != "subagent")
  }

  predicate ValidContent(c: Content) {
    && ValidText(c.model, 256, true) && ValidText(c.instructions, 32768, false)
    && ValidTools(c.tools) && |c.permissions| <= MAX_RULES && (forall r :: r in c.permissions ==> ValidRule(r))
    && ValidText(c.name, 128, false) && ValidText(c.description, 2048, true) && ValidMode(c)
  }

  function Ids(entries: seq<Agent>): (r: seq<string>)
    ensures |r| == |entries| && forall i :: 0 <= i < |entries| ==> r[i] == entries[i].id
  {
    seq(|entries|, i requires 0 <= i < |entries| => entries[i].id)
  }

  predicate OneDefault(entries: seq<Agent>) {
    forall i, j :: 0 <= i < j < |entries| ==> !(entries[i].content.isDefault && entries[j].content.isDefault)
  }

  /** What the decoder insists on for the agents of a document. */
  predicate ValidEntries(entries: seq<Agent>) {
    && |entries| <= MAX_AGENTS && OneDefault(entries) && Distinct(Ids(entries))
    && forall a :: a in entries ==> Identifier(a.id, 64) && ValidContent(a.content)
  }

  predicate ValidRevisions(c: Catalog) {
    1 <= c.revision <= MAX_REVISION && forall a :: a in c.entries ==> 1 <= a.revision <= c.revision
  }

  predicate ValidRetired(c: Catalog) {
    && |c.retired| <= MAX_RETIRED && Distinct(c.retired)
    && (forall id :: id in c.retired ==> Identifier(id, 64) && id !in Ids(c.entries))
  }

  /** A stored catalogue. */
  predicate Valid(c: Catalog) {
    ValidEntries(c.entries) && ValidRevisions(c) && ValidRetired(c)
  }

  // ------------------------------------------------------------------------ documents

  datatype Field =
    | FVersion | FRevision | FAgents | FRetired | FId | FModel | FInstructions | FTools | FPermissions | FName
    | FDescription | FMode | FHidden | FDefault | FPlacement | FAction | FResource | FEffect | FUnknown(name: string)

  /** A parsed JSON document; object members are keyed by their names. */
  datatype Json = Null | Bool(flag: bool) | Num(number: int) | Str(text: string) | Arr(items: seq<Json>)
    | Obj(fields: map<Field, Json>)

  function EncodeRule(r: Rule): Json {
    Obj(map[FAction := Str(r.action), FResource := Str(r.resource), FEffect := Str(r.effect)])
  }

  function Map<A, B>(s: seq<A>, f: A -> B): (r: seq<B>)
    ensures |r| == |s| && forall i :: 0 <= i < |s| ==> r[i] == f(s[i])
  {
    seq(|s|, i requires 0 <= i < |s| => f(s[i]))
  }

  function Strings(s: seq<string>): Json {
    Arr(Map(s, t => Str(t)))
  }

  /** The members that every stored agent has. */
  function PlainMembers(a: Agent): map<Field, Json> {
    var c := a.content;
    map[FId := Str(a.id), FRevision := Num(a.revision), FModel := Str(c.model), FInstructions := Str(c.instructions),
        FName := Str(if c.name == "" then a.id else c.name), FDescription := Str(c.description), FMode := Str(c.mode),
        FHidden := Bool(c.hidden), FDefault := Bool(c.isDefault)]
  }

  /** A member that is written only when there is something to write. */
  function WithMember(o: map<Field, Json>, f: Field, write: bool, value: Json): map<Field, Json> {
    if write then o[f := value] else o
  }

  function EncodeAgent(a: Agent): Json {
    var c := a.content;
    var placed := WithMember(PlainMembers(a), FPlacement, c.placement != "", Str(c.placement));
    var tooled := WithMember(placed, FTools, c.tools.Some?, if c.tools.Some? then Strings(c.tools.value) else Null);
    Obj(WithMember(tooled, FPermissions, c.permissions != [], Arr(Map(c.permissions, EncodeRule))))
  }

  function Encode(c: Catalog): Json {
    Obj(map[FVersion := Num(1), FRevision := Num(c.revision), FAgents := Arr(Map(c.entries, EncodeAgent)),
            FRetired := Strings(c.retired)])
  }

  /** All results, or none when one is missing. */
  function All<A, B>(s: seq<A>, f: A -> Option<B>): (r: Option<seq<B>>)
    ensures r.Some? <==> forall i :: 0 <= i < |s| ==> f(s[i]).Some?
    ensures r.Some? ==> |r.value| == |s| && forall i :: 0 <= i < |s| ==> f(s[i]) == Some(r.value[i])
  {
    if forall i :: 0 <= i < |s| ==> f(s[i]).Some? then
      Some(seq(|s|, i requires 0 <= i < |s| && f(s[i]).Some? => f(s[i]).value))
    else None
  }

  function DecodeString(j: Json): Option<string> {
    if j.Str? then Some(j.text) else None
  }

  function DecodeStrings(j: Json): Option<seq<string>> {
    if j.Arr? then All(j.items, DecodeString) else None
  }

  function DecodeRule(j: Json): Option<Rule> {
    if j.Obj? && j.fields.Keys == {FAction, FResource, FEffect} && j.fields[FAction].Str? && j.fields[FResource].Str?
      && j.fields[FEffect].Str?
    then Some(Rule(j.fields[FAction].text, j.fields[FResource].text, j.fields[FEffect].text)) else None
  }

  /** A text member, or what its absence means. */
  function Text(o: map<Field, Json>, key: Field, absent: Option<string>): Option<string> {
    if key in o then DecodeString(o[key]) else absent
  }

  /** A flag member, false when absent. */
  function Flag(o: map<Field, Json>, key: Field): Option<bool> {
    if key !in o then Some(false) else if o[key].Bool? then Some(o[key].flag) else None
  }

  function Tools(o: map<Field, Json>): Option<Option<seq<string>>> {
    if FTools !in o then Some(None)
    else
      var names := DecodeStrings(o[FTools]);
      if names.Some? then Some(Some(names.value)) else None
  }

  function Permissions(o: map<Field, Json>): Option<seq<Rule>> {
    if FPermissions !in o then Some([]) else if o[FPermissions].Arr? then All(o[FPermissions].items, DecodeRule)
    else None
  }

  /** An explicit placement may not be empty. */
  function Placement(o: map<Field, Json>): Option<string> {
    if FPlacement in o && o[FPlacement] == Str("") then None else Text(o, FPlacement, Some(""))
  }

  const AGENT_FIELDS :=
    {FId, FModel, FInstructions, FTools, FPermissions, FName, FDescription, FMode, FHidden, FDefault, FPlacement}

  function DecodeContent(o: map<Field, Json>, id: string): Option<Content> {
    var model, instructions, name := Text(o, FModel, Some("")), Text(o, FInstructions, None), Text(o, FName, Some(id));
    var description, mode, placement := Text(o, FDescription, Some("")), Text(o, FMode, Some("all")), Placement(o);
    var tools, permissions, hidden, isDefault := Tools(o), Permissions(o), Flag(o, FHidden), Flag(o, FDefault);
    if model.Some? && instructions.Some? && name.Some? && description.Some? && mode.Some? && placement.Some?
      && tools.Some? && permissions.Some?
       && hidden.Some? && isDefault.Some?
    then Some(Content(model.value, instructions.value, tools.value, permissions.value, name.value, description.value,
                      mode.value,
                      hidden.value, isDefault.value, placement.value))
    else None
  }

  function Revision(o: map<Field, Json>): Option<nat> {
    if FRevision in o && o[FRevision].Num? && 1 <= o[FRevision].number <= MAX_REVISION then Some(o[FRevision].number)
    else None
  }

  function DecodeAgent(j: Json, stored: bool): Option<Agent> {
    if !j.Obj? || !(j.fields.Keys <= AGENT_FIELDS + if stored then {FRevision} else {}) then None
    else
      var id := Text(j.fields, FId, None);
      var revision := if stored then Revision(j.fields) else Some(0);
      if id.None? || revision.None? then None
      else
        var content := DecodeContent(j.fields, id.value);
        if content.Some? && Identifier(id.value, 64) && ValidContent(content.value) then
          Some(Agent(id.value, revision.value, content.value)) else None
  }

  function DecodeAgents(o: map<Field, Json>, stored: bool): Option<seq<Agent>> {
    if FAgents !in o || !o[FAgents].Arr? || |o[FAgents].items| > MAX_AGENTS then None
    else
      var entries := All(o[FAgents].items, (j: Json) => DecodeAgent(j, stored));
      if entries.Some? && OneDefault(entries.value) && Distinct(Ids(entries.value)) then entries else None
  }

  /** A document an owner supplies: agents without revisions. */
  function DecodeDesired(j: Json): Option<seq<Agent>> {
    if j.Obj? && j.fields.Keys <= {FAgents} then DecodeAgents(j.fields, false) else None
  }

  function DecodeStored(j: Json): Option<Catalog> {
    if !j.Obj? || !(j.fields.Keys <= {FVersion, FRevision, FAgents, FRetired}) || FVersion !in j.fields
      || j.fields[FVersion] != Num(1) || FRetired !in j.fields
    then None
    else
      var revision, entries, retired := Revision(j.fields), DecodeAgents(j.fields, true),
        DecodeStrings(j.fields[FRetired]);
      if revision.Some? && entries.Some? && retired.Some? then
        var c := Catalog(revision.value, entries.value, retired.value);
        if ValidRevisions(c) && ValidRetired(c) then Some(c) else None
      else None
  }

  // ------------------------------------------------------------------------ round trip

  lemma DecodedAgentValid(j: Json, stored: bool)
    ensures var a := DecodeAgent(j, stored);
            a.Some? ==> Identifier(a.value.id, 64) && ValidContent(a.value.content)
  {
  }

  lemma DecodedAgentsValid(o: map<Field, Json>, stored: bool)
    ensures DecodeAgents(o, stored).Some? ==> ValidEntries(DecodeAgents(o, stored).value)
  {
    var entries := DecodeAgents(o, stored);
    if entries.Some? {
      var items := o[FAgents].items;
      forall a | a in entries.value ensures Identifier(a.id, 64) && ValidContent(a.content) {
        var i :| 0 <= i < |entries.value| && entries.value[i] == a;
        assert DecodeAgent(items[i], stored) == Some(a);
        DecodedAgentValid(items[i], stored);
      }
    }
  }

  /** Whatever the decoder accepts is valid. */
  lemma DecodedIsValid(j: Json)
    ensures DecodeStored(j).Some? ==> Valid(DecodeStored(j).value)
    ensures DecodeDesired(j).Some? ==> ValidEntries(DecodeDesired(j).value)
  {
    if j.Obj? {
      DecodedAgentsValid(j.fields, true);
      DecodedAgentsValid(j.fields, false);
    }
  }

  lemma StringsDecode(s: seq<string>)
    ensures DecodeStrings(Strings(s)) == Some(s)
  {
    var items := Strings(s).items;
    assert forall i :: 0 <= i < |s| ==> items[i] == Str(s[i]);
    var r := All(items, DecodeString);
    assert r.value == s;
  }

  lemma RuleDecodes(r: Rule)
    ensures DecodeRule(EncodeRule(r)) == Some(r)
  {
  }

  lemma RulesDecode(rules: seq<Rule>)
    ensures All(Map(rules, EncodeRule), DecodeRule) == Some(rules)
  {
    var items := Map(rules, EncodeRule);
    forall i | 0 <= i < |items| ensures DecodeRule(items[i]) == Some(rules[i]) {
      RuleDecodes(rules[i]);
    }
    var r := All(items, DecodeRule);
    assert r.value == rules;
  }

  /** The plain members of an encoded agent. */
  ghost predicate Carries(o: map<Field, Json>, a: Agent) {
    var c := a.content;
    && Has(o, FId, Str(a.id)) && Has(o, FRevision, Num(a.revision)) && Has(o, FModel, Str(c.model))
    && Has(o, FInstructions, Str(c.instructions)) && Has(o, FName, Str(c.name))
      && Has(o, FDescription, Str(c.description))
    && Has(o, FMode, Str(c.mode)) && Has(o, FHidden, Bool(c.hidden)) && Has(o, FDefault, Bool(c.isDefault))
  }

  predicate Has(o: map<Field, Json>, f: Field, value: Json) {
    f in o && o[f] == value
  }

  /** The members written only when there is something to write. */
  predicate Listed(f: Field) {
    f == FTools || f == FPermissions || f == FPlacement
  }

  lemma PlainCarries(a: Agent)
    requires a.content.name != ""
    ensures Carries(PlainMembers(a), a) && PlainMembers(a).Keys <= AGENT_FIELDS + {FRevision}
  {
  }

  lemma WithCarries(o: map<Field, Json>, a: Agent, f: Field, write: bool, value: Json)
    requires Carries(o, a) && Listed(f) && o.Keys <= AGENT_FIELDS + {FRevision}
    ensures Carries(WithMember(o, f, write, value), a)
    ensures WithMember(o, f, write, value).Keys <= AGENT_FIELDS + {FRevision}
  {
  }

  lemma EncodedCarries(a: Agent)
    requires a.content.name != ""
    ensures Carries(EncodeAgent(a).fields, a)
    ensures EncodeAgent(a).fields.Keys <= AGENT_FIELDS + {FRevision}
  {
    var c := a.content;
    PlainCarries(a);
    var placed := WithMember(PlainMembers(a), FPlacement, c.placement != "", Str(c.placement));
    WithCarries(PlainMembers(a), a, FPlacement, c.placement != "", Str(c.placement));
    var tools := if c.tools.Some? then Strings(c.tools.value) else Null;
    WithCarries(placed, a, FTools, c.tools.Some?, tools);
    WithCarries(WithMember(placed, FTools, c.tools.Some?, tools), a, FPermissions, c.permissions != [],
                Arr(Map(c.permissions, EncodeRule)));
  }

  lemma EncodedLists(a: Agent)
    ensures var o := EncodeAgent(a).fields;
            && Placement(o) == Some(a.content.placement)
            && (FTools in o <==> a.content.tools.Some?) && (FTools in o ==> o[FTools] == Strings(a.content.tools.value))
            && (FPermissions in o <==> a.content.permissions != [])
            && (FPermissions in o ==> o[FPermissions] == Arr(Map(a.content.permissions, EncodeRule)))
  {
  }

  lemma ListsDecode(o: map<Field, Json>, c: Content)
    requires FTools in o <==> c.tools.Some?
    requires FTools in o ==> o[FTools] == Strings(c.tools.value)
    requires FPermissions in o <==> c.permissions != []
    requires FPermissions in o ==> o[FPermissions] == Arr(Map(c.permissions, EncodeRule))
    ensures Tools(o) == Some(c.tools) && Permissions(o) == Some(c.permissions)
  {
    if c.tools.Some? {
      StringsDecode(c.tools.value);
    }
    RulesDecode(c.permissions);
  }

  lemma ContentDecodes(o: map<Field, Json>, a: Agent)
    requires Carries(o, a) && Placement(o) == Some(a.content.placement)
    requires Tools(o) == Some(a.content.tools) && Permissions(o) == Some(a.content.permissions)
    ensures DecodeContent(o, a.id) == Some(a.content)
  {
  }

  lemma AgentDecodes(a: Agent)
    requires Identifier(a.id, 64) && ValidContent(a.content) && 1 <= a.revision <= MAX_REVISION
    ensures DecodeAgent(EncodeAgent(a), true) == Some(a)
  {
    var o := EncodeAgent(a).fields;
    EncodedCarries(a);
    EncodedLists(a);
    ListsDecode(o, a.content);
    ContentDecodes(o, a);
  }

  lemma AgentsDecode(c: Catalog)
    requires ValidEntries(c.entries) && ValidRevisions(c)
    ensures DecodeAgents(Encode(c).fields, true) == Some(c.entries)
  {
    var items := Map(c.entries, EncodeAgent);
    var f := (j: Json) => DecodeAgent(j, true);
    assert Encode(c).fields[FAgents] == Arr(items);
    forall i | 0 <= i < |items| ensures f(items[i]) == Some(c.entries[i]) {
      assert c.entries[i] in c.entries;
      AgentDecodes(c.entries[i]);
    }
    var r := All(items, f);
    assert r.Some? && forall i :: 0 <= i < |items| ==> r.value[i] == c.entries[i];
    assert r.value == c.entries;
  }

  /** Every valid catalogue is read back as it was written. */
  lemma EncodedDecodes(c: Catalog)
    requires Valid(c)
    ensures DecodeStored(Encode(c)) == Some(c)
  {
    AgentsDecode(c);
    StringsDecode(c.retired);
    var o := Encode(c).fields;
    assert o[FRetired] == Strings(c.retired);
    assert Revision(o) == Some(c.revision);
  }

  // ----------------------------------------------------------------------------- length

  function FieldAt(i: nat): Field
    requires i < 18
  {
    if i < 9 then
      if i == 0 then FVersion else if i == 1 then FRevision else if i == 2 then FAgents else if i == 3 then FRetired
      else if i == 4 then FId else if i == 5 then FModel else if i == 6 then FInstructions else if i == 7 then FTools
      else FPermissions
    else if i == 9 then FName else if i == 10 then FDescription else if i == 11 then FMode else if i == 12 then FHidden
    else if i == 13 then FDefault else if i == 14 then FPlacement else if i == 15 then FAction
    else if i == 16 then FResource else FEffect
  }

  /** The length of a member's name. */
  function NameLength(f: Field): nat {
    match f
    case FVersion => 7 case FRevision => 8 case FAgents => 6 case FRetired => 11 case FId => 2 case FModel => 8
    case FInstructions => 12 case FTools => 5 case FPermissions => 11 case FName => 4 case FDescription => 11
    case FMode => 4 case FHidden => 6 case FDefault => 7 case FPlacement => 9 case FAction => 6 case FResource => 8
    case FEffect => 6 case FUnknown(name) => |name|
  }

  function CharLength(c: char): nat {
    if c == '"' || c == '\\' || c == '\n' || c == '\r' || c == '\t' || c as int == 8 || c as int == 12 then 2
    else if c as int < 32 then 6
    else 1
  }

  function TextLength(s: string): nat {
    if s == "" then 0 else TextLength(s[..|s| - 1]) + CharLength(s[|s| - 1])
  }

  function NumberLength(n: int): (r: nat)
    ensures r >= 1
    decreases if n < 0 then 1 - n else n
  {
    if n < 0 then 1 + NumberLength(-n) else if n < 10 then 1 else 1 + NumberLength(n / 10)
  }

  /** The length of a document written without blanks; members the decoders refuse are not counted. */
  function Length(j: Json): nat
    decreases j, 1, 0
  {
    match j
    case Null => 4
    case Bool(b) => if b then 4 else 5
    case Num(n) => NumberLength(n)
    case Str(t) => 2 + TextLength(t)
    case Arr(items) => if items == [] then 2 else 1 + ItemsLength(j, |items|)
    case Obj(o) => 1 + MembersLength(j, 18)
  }

  /** The first `n` items, each with its comma or closing bracket. */
  function ItemsLength(j: Json, n: nat): nat
    requires j.Arr? && n <= |j.items|
    decreases j, 0, n
  {
    if n == 0 then 0 else ItemsLength(j, n - 1) + Length(j.items[n - 1]) + 1
  }

  /** A member with its quotes, colon, and comma or closing brace. */
  function MemberLength(j: Json, f: Field): nat
    requires j.Obj?
    decreases j, 0, 0
  {
    if f in j.fields then NameLength(f) + 4 + Length(j.fields[f]) else 0
  }

  function MembersLength(j: Json, n: nat): nat
    requires j.Obj? && n <= 18
    decreases j, 0, 1 + n
  {
    if n == 0 then 0 else MembersLength(j, n - 1) + MemberLength(j, FieldAt(n - 1))
  }

  /** What a stored agent may have that the document does not: its revision, and the defaults spelled out. */
  function Added(f: Field): nat {
    match f
    case FRevision => 28 case FModel => 14 case FName => 74 case FDescription => 17
    case FMode => 13 case FHidden => 15 case FDefault => 16
    case _ => 0
  }

  function AddedTotal(n: nat): nat
    requires n <= 18
  {
    if n == 0 then 0 else AddedTotal(n - 1) + Added(FieldAt(n - 1))
  }

  lemma AddedSum()
    ensures AddedTotal(18) == 177
  {
    assert AddedTotal(6) == 42;
    assert AddedTotal(12) == 146;
  }

  lemma {:induction false} PlainLength(s: string)
    requires forall i :: 0 <= i < |s| ==> NameChar(s[i])
    ensures TextLength(s) == |s|
    decreases |s|
  {
    if s != "" {
      PlainLength(s[..|s| - 1]);
    }
  }

  lemma {:induction false} DecimalLength(n: nat, k: nat, power: nat)
    requires k > 0 && n < power && power == PowerOfTen(k)
    ensures NumberLength(n) <= k
    decreases k
  {
    if n >= 10 {
      assert k > 1;
      DecimalLength(n / 10, k - 1, PowerOfTen(k - 1));
    }
  }

  lemma SixteenDigits(n: nat)
    requires n <= MAX_REVISION
    ensures NumberLength(n) <= 16
  {
    TenToTheSixteenth();
    DecimalLength(n, 16, PowerOfTen(16));
  }

  lemma StringsBack(j: Json)
    ensures DecodeStrings(j).Some? ==> j == Strings(DecodeStrings(j).value)
  {
    if DecodeStrings(j).Some? {
      var s := DecodeStrings(j).value;
      forall i | 0 <= i < |j.items| ensures j.items[i] == Str(s[i]) {
        assert DecodeString(j.items[i]) == Some(s[i]);
      }
      assert j.items == Strings(s).items;
    }
  }

  lemma RuleBack(j: Json)
    ensures DecodeRule(j).Some? ==> j == EncodeRule(DecodeRule(j).value)
  {
    if DecodeRule(j).Some? {
      var e := EncodeRule(DecodeRule(j).value);
      assert j.fields.Keys == e.fields.Keys;
      assert j.fields == e.fields;
    }
  }

  lemma RulesBack(items: seq<Json>)
    ensures All(items, DecodeRule).Some? ==> items == Map(All(items, DecodeRule).value, EncodeRule)
  {
    var rules := All(items, DecodeRule);
    if rules.Some? {
      forall i | 0 <= i < |items| ensures items[i] == EncodeRule(rules.value[i]) {
        assert DecodeRule(items[i]) == Some(rules.value[i]);
        RuleBack(items[i]);
      }
      assert items == Map(rules.value, EncodeRule);
    }
  }

  /** The tools and permissions of a document are stored as they were written. */
  lemma ListsBack(o: map<Field, Json>, c: Content)
    requires Tools(o) == Some(c.tools) && Permissions(o) == Some(c.permissions)
    ensures c.tools.Some? ==> FTools in o && o[FTools] == Strings(c.tools.value)
    ensures c.permissions != [] ==> FPermissions in o && o[FPermissions] == Arr(Map(c.permissions, EncodeRule))
  {
    if FTools in o {
      StringsBack(o[FTools]);
    }
    if FPermissions in o {
      RulesBack(o[FPermissions].items);
    }
  }

  /** Every stored member is one of the document, or a default, or the revision. */
  ghost predicate Grows(j: Json, e: Json, f: Field)
    requires j.Obj? && e.Obj?
  {
    f in e.fields ==>
      (f in j.fields && e.fields[f] == j.fields[f]) || NameLength(f) + 4 + Length(e.fields[f]) <= Added(f)
  }

  lemma TextGrows(j: Json, e: Json, f: Field, absent: string)
    requires j.Obj? && e.Obj? && Text(j.fields, f, Some(absent)).Some?
    requires Text(e.fields, f, None) == Text(j.fields, f, Some(absent))
    requires NameLength(f) + 6 + TextLength(absent) <= Added(f)
    ensures Grows(j, e, f)
  {
  }

  lemma FlagGrows(j: Json, e: Json, f: Field)
    requires j.Obj? && e.Obj? && f in e.fields && e.fields[f].Bool? && Flag(j.fields, f) == Some(e.fields[f].flag)
    requires NameLength(f) + 9 <= Added(f)
    ensures Grows(j, e, f)
  {
  }

  lemma AgentParts(j: Json, a: Agent)
    requires DecodeAgent(j, false) == Some(a)
    ensures j.Obj? && DecodeContent(j.fields, a.id) == Some(a.content) && Text(j.fields, FId, None) == Some(a.id)
    ensures Identifier(a.id, 64) && ValidContent(a.content)
  {
  }

  lemma DefaultGrows(j: Json, id: string, c: Content, e: Json, f: Field)
    requires j.Obj? && e.Obj? && DecodeContent(j.fields, id) == Some(c) && Identifier(id, 64)
    requires Defaulted(f)
    requires Has(e.fields, FModel, Str(c.model)) && Has(e.fields, FName, Str(c.name))
    requires Has(e.fields, FDescription, Str(c.description))
    requires Has(e.fields, FMode, Str(c.mode)) && Has(e.fields, FHidden, Bool(c.hidden))
    requires Has(e.fields, FDefault, Bool(c.isDefault))
    ensures Grows(j, e, f)
  {
    match f {
      case FName =>
        PlainLength(id);
        TextGrows(j, e, f, id);
      case FMode =>
        PlainLength("all");
        TextGrows(j, e, f, "all");
      case FHidden => FlagGrows(j, e, f);
      case FDefault => FlagGrows(j, e, f);
      case _ => TextGrows(j, e, f, "");
    }
  }

  lemma ListGrows(j: Json, a: Agent, e: Json, f: Field)
    requires j.Obj? && DecodeContent(j.fields, a.id) == Some(a.content) && e == EncodeAgent(a)
    requires Listed(f)
    ensures Grows(j, e, f)
  {
    EncodedLists(a);
    ListsBack(j.fields, a.content);
  }

  lemma PlainGrows(j: Json, a: Agent, e: Json, f: Field)
    requires j.Obj? && e.Obj? && DecodeContent(j.fields, a.id) == Some(a.content)
    requires Text(j.fields, FId, None) == Some(a.id)
    requires f == FId || f == FInstructions || f == FRevision
    requires Has(e.fields, FId, Str(a.id)) && Has(e.fields, FInstructions, Str(a.content.instructions))
    requires a.revision <= MAX_REVISION && Has(e.fields, FRevision, Num(a.revision))
    ensures Grows(j, e, f)
  {
    SixteenDigits(a.revision);
  }

  predicate Defaulted(f: Field) {
    f == FModel || f == FName || f == FDescription || f == FMode || f == FHidden || f == FDefault
  }

  lemma NotStored(f: Field)
    requires !Listed(f) && !Defaulted(f) && f != FId && f != FInstructions && f != FRevision
    ensures f !in AGENT_FIELDS + {FRevision}
  {
  }

  lemma AgentGrows(j: Json, a: Agent, revision: nat, f: Field)
    requires DecodeAgent(j, false) == Some(a) && revision <= MAX_REVISION
    ensures j.Obj? && Grows(j, EncodeAgent(a.(revision := revision)), f)
  {
    var stored := a.(revision := revision);
    var e := EncodeAgent(stored);
    AgentParts(j, a);
    EncodedCarries(stored);
    if Listed(f) {
      ListGrows(j, stored, e, f);
    } else if Defaulted(f) {
      DefaultGrows(j, a.id, a.content, e, f);
    } else if f == FId || f == FInstructions || f == FRevision {
      PlainGrows(j, stored, e, f);
    } else {
      NotStored(f);
    }
  }

  lemma {:induction false} MembersGrow(j: Json, e: Json, n: nat)
    requires j.Obj? && e.Obj? && n <= 18 && forall i :: 0 <= i < 18 ==> Grows(j, e, FieldAt(i))
    ensures MembersLength(e, n) <= MembersLength(j, n) + AddedTotal(n)
    decreases n
  {
    if n > 0 {
      MembersGrow(j, e, n - 1);
      assert Grows(j, e, FieldAt(n - 1));
    }
  }

  /** A stored agent is at most 177 bytes longer than its document. */
  lemma AgentLength(j: Json, a: Agent, revision: nat)
    requires DecodeAgent(j, false) == Some(a) && revision <= MAX_REVISION
    ensures Length(EncodeAgent(a.(revision := revision))) <= Length(j) + 177
  {
    var e := EncodeAgent(a.(revision := revision));
    forall i | 0 <= i < 18 ensures j.Obj? && Grows(j, e, FieldAt(i)) {
      AgentGrows(j, a, revision, FieldAt(i));
    }
    AgentGrows(j, a, revision, FId);
    MembersGrow(j, e, 18);
    AddedSum();
  }

  lemma {:induction false} ItemsGrow(j: Json, e: Json, n: nat)
    requires j.Arr? && e.Arr? && |j.items| == |e.items| && n <= |j.items|
    requires forall i :: 0 <= i < |j.items| ==> Length(e.items[i]) <= Length(j.items[i]) + 177
    ensures ItemsLength(e, n) <= ItemsLength(j, n) + 177 * n
    decreases n
  {
    if n > 0 {
      ItemsGrow(j, e, n - 1);
    }
  }

  lemma {:induction false} NamesLength(j: Json, ids: seq<string>, n: nat)
    requires j == Strings(ids) && n <= |ids| && forall id :: id in ids ==> Identifier(id, 64)
    ensures ItemsLength(j, n) <= 67 * n
    decreases n
  {
    if n > 0 {
      NamesLength(j, ids, n - 1);
      assert ids[n - 1] in ids;
      PlainLength(ids[n - 1]);
    }
  }

  lemma {:induction false} AbsentMembers(j: Json, from: nat, n: nat)
    requires j.Obj? && from <= n <= 18 && forall i :: from <= i < n ==> FieldAt(i) !in j.fields
    ensures MembersLength(j, n) == MembersLength(j, from)
    decreases n
  {
    if n > from {
      AbsentMembers(j, from, n - 1);
    }
  }

  lemma {:induction false} MemberWithin(j: Json, i: nat, n: nat)
    requires j.Obj? && i < n <= 18
    ensures MembersLength(j, n) >= MemberLength(j, FieldAt(i))
    decreases n
  {
    if i < n - 1 {
      MemberWithin(j, i, n - 1);
    }
  }

  /** A stored document: its two numbers, its agents and its retired identifiers. */
  lemma CatalogLength(c: Catalog)
    requires ValidRetired(c) && c.revision <= MAX_REVISION
    ensures Length(Encode(c)) <= Length(Arr(Map(c.entries, EncodeAgent))) + 67 * |c.retired| + 68
  {
    var e := Encode(c);
    SixteenDigits(c.revision);
    NamesLength(Strings(c.retired), c.retired, |c.retired|);
    AbsentMembers(e, 4, 18);
    assert Length(e.fields[FVersion]) == 1;
    assert MembersLength(e, 1) == 12;
    assert Length(e.fields[FRevision]) == NumberLength(c.revision);
    assert MembersLength(e, 2) <= 40;
    assert MembersLength(e, 3) == MembersLength(e, 2) + 10 + Length(e.fields[FAgents]);
    assert MembersLength(e, 4) == MembersLength(e, 3) + 15 + Length(e.fields[FRetired]);
  }

  /** The agents of a written catalogue against those of the document, item by item. */
  lemma AgentsLength(items: seq<Json>, entries: seq<Agent>)
    requires |items| == |entries| <= MAX_AGENTS
    requires forall i :: 0 <= i < |items| ==>
               entries[i].revision <= MAX_REVISION && DecodeAgent(items[i], false) == Some(entries[i].(revision := 0))
    ensures Length(Arr(Map(entries, EncodeAgent))) <= Length(Arr(items)) + 177 * MAX_AGENTS
  {
    var j, e := Arr(items), Arr(Map(entries, EncodeAgent));
    forall i | 0 <= i < |items| ensures Length(e.items[i]) <= Length(items[i]) + 177 {
      AgentLength(items[i], entries[i].(revision := 0), entries[i].revision);
      assert entries[i].(revision := 0).(revision := entries[i].revision) == entries[i];
    }
    ItemsGrow(j, e, |items|);
  }
}
