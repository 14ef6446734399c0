/** The provenance graph as a value: what a session of records adds to it, and what then holds of its
    links between agents, activities and entities (sections 5.3.2 to 5.3.4 of PROV-DM). */
module ProvGraph {
  import opened Decimal

  datatype Node = Uri(name: string) | Literal(text: string)

  datatype Triple = Triple(subject: string, predicate_: string, object_: Node)

  const TYPE := "prov:type"
  const MEMBER := "prov:wasMemberOf"
  const DELEGATION := "prov:actedOnBehalfOf"
  const ASSOCIATION := "prov:wasAssociatedWith"
  const ATTRIBUTION := "prov:wasAttributedTo"
  const STARTED := "prov:startedAtTime"
  const ENDED := "prov:endedAtTime"
  const ELAPSED := "provio:elapsed"
  const AGENT := Uri("prov:Agent")
  const ACTIVITY := Uri("prov:Activity")
  const ENTITY := Uri("prov:Entity")

  /** The text form of a UUID. */
  type Uuid = s: string | |s| == 36 witness seq(36, _ => '0')

  datatype Level = Default | PrintOnly | FileOnly | FileAndPrint | Level3 | Level4 | Disabled

  /** The switches of prov_config that emission depends on. */
  datatype Config = Config(level: Level, lineFormat: string,
                           files: bool, groups: bool, datasets: bool, attributes: bool, datatypes: bool,
                           apis: bool, durations: bool, programs: bool, threads: bool, users: bool)
  {
    /** Records reach the RDF model: file output in RDF format. */
    predicate Emits() {
      (level == FileOnly || level == FileAndPrint) && (lineFormat == "rdf" || lineFormat == "RDF")
    }

    /** Objects of this type are recorded. */
    predicate Tracks(type_: string) {
      || (files && type_ == "provio:File")
      || (groups && type_ == "provio:Group")
      || (datasets && type_ == "provio:Dataset")
      || (attributes && type_ == "provio:Attr")
      || (datatypes && type_ == "provio:Datatype")
    }
  }

  /** The names set up by provio_init. */
  datatype Names = Names(user: string, rank: string, program: string, startTime: string)

  /** The global flags USER_TRACKED, MPI_RANK_TRACKED and PROC_NAME_TRACKED, which outlive a session. */
  datatype Flags = Flags(user: bool, rank: bool, program: bool)

  /** One I/O operation, and the UUID drawn for it. */
  datatype Record = Record(object_: string, type_: string, relation: string, api: string, duration: nat, uuid: Uuid)

  function ApiNode(r: Record): string {
    r.api + "--" + r.uuid
  }

  // ---- what each part of the emitter adds ----

  function UserTriples(c: Config, n: Names, tracked: bool): seq<Triple> {
    if c.users && !tracked then [Triple(n.user, TYPE, AGENT), Triple(n.user, MEMBER, Uri("provio:User"))] else []
  }

  function RankTriples(c: Config, n: Names, tracked: bool): seq<Triple> {
    if c.threads && !tracked then
      [Triple(n.rank, TYPE, AGENT), Triple(n.rank, MEMBER, Uri("provio:Thread"))]
      + (if c.users then [Triple(n.rank, DELEGATION, Uri(n.user))] else [])
    else []
  }

  function ApiTriples(c: Config, n: Names, r: Record): seq<Triple> {
    if c.apis then
      [Triple(ApiNode(r), TYPE, ACTIVITY)]
      + (if c.programs then [Triple(ApiNode(r), ASSOCIATION, Uri(n.program))] else [])
      + (if c.durations then [Triple(ApiNode(r), ELAPSED, Literal(Unsigned(r.duration)))] else [])
    else []
  }

  function ObjectTriples(c: Config, n: Names, r: Record): seq<Triple> {
    if c.Tracks(r.type_) then
      [Triple(r.object_, TYPE, ENTITY), Triple(r.object_, MEMBER, Uri(r.type_))]
      + (if c.apis then [Triple(r.object_, r.relation, Uri(ApiNode(r)))] else [])
      + (if c.programs then [Triple(r.object_, ATTRIBUTION, Uri(n.program))] else [])
    else []
  }

  function RecordTriples(c: Config, n: Names, r: Record): seq<Triple> {
    ApiTriples(c, n, r) + ObjectTriples(c, n, r)
  }

  function AllRecordTriples(c: Config, n: Names, rs: seq<Record>): seq<Triple> {
    Flatten(TriplesOf(c, n), rs)
  }

  function TriplesOf(c: Config, n: Names): Record -> seq<Triple> {
    (r: Record) => RecordTriples(c, n, r)
  }

  function Flatten<A, B>(f: A -> seq<B>, xs: seq<A>): seq<B> {
    if xs == [] then [] else Flatten(f, xs[..|xs| - 1]) + f(xs[|xs| - 1])
  }

  lemma {:induction false} InFlatten<A, B>(f: A -> seq<B>, xs: seq<A>, y: B)
    ensures y in Flatten(f, xs) <==> exists x :: x in xs && y in f(x)
  {
    if xs != [] {
      var front, last := xs[..|xs| - 1], xs[|xs| - 1];
      InFlatten(f, front, y);
      assert xs == front + [last];
    }
  }

  function ProgramTriples(c: Config, n: Names, tracked: bool, endTime: string): seq<Triple> {
    if c.programs then
      (if tracked then []
       else [Triple(n.program, TYPE, AGENT), Triple(n.program, MEMBER, Uri("provio:Program"))]
            + (if c.threads then [Triple(n.program, DELEGATION, Uri(n.rank))] else [])
            + [Triple(n.program, STARTED, Literal(n.startTime))])
      + [Triple(n.program, ENDED, Literal(endTime))]
    else []
  }

  /** The agents are declared with the first record that is emitted, the program at the end. */
  function AgentTriples(c: Config, n: Names, f: Flags, rs: seq<Record>): seq<Triple> {
    if c.Emits() && rs != [] then UserTriples(c, n, f.user) + RankTriples(c, n, f.rank) else []
  }

  /** Everything a session adds: a function of the switches, the names, the flags it starts with, the
      records and the end time. */
  function Graph(c: Config, n: Names, f: Flags, rs: seq<Record>, endTime: string): seq<Triple> {
    Before(c, n, f, rs) + ProgramTriples(c, n, f.program, endTime)
  }

  /** The part of the graph that is there before teardown. */
  function Before(c: Config, n: Names, f: Flags, rs: seq<Record>): seq<Triple> {
    AgentTriples(c, n, f, rs) + (if c.Emits() then AllRecordTriples(c, n, rs) else [])
  }

  lemma AllOneMore(c: Config, n: Names, rs: seq<Record>, r: Record)
    ensures AllRecordTriples(c, n, rs + [r]) == AllRecordTriples(c, n, rs) + RecordTriples(c, n, r)
  {
  }

  /** One more record adds the agents if it is the first, and its own statements. */
  lemma OneMoreRecord(c: Config, n: Names, f: Flags, rs: seq<Record>, r: Record)
    requires c.Emits()
    ensures Before(c, n, f, rs + [r])
         == Before(c, n, f, rs) + UserTriples(c, n, FlagsAfter(c, f, rs).user)
            + RankTriples(c, n, FlagsAfter(c, f, rs).rank) + RecordTriples(c, n, r)
  {
    AllOneMore(c, n, rs, r);
    var now := FlagsAfter(c, f, rs);
    if rs != [] { TrackedOnce(c, n, now); }
    FirstOrLater(rs == [], AgentTriples(c, n, f, rs + [r]), AllRecordTriples(c, n, rs),
                 UserTriples(c, n, now.user), RankTriples(c, n, now.rank), RecordTriples(c, n, r));
  }

  lemma FirstOrLater<T>(first: bool, agents: seq<T>, all: seq<T>, users: seq<T>, ranks: seq<T>, own: seq<T>)
    requires if first then all == [] && agents == users + ranks else users == ranks == []
    ensures agents + (all + own) == (if first then [] else agents + all) + users + ranks + own
  {
  }

  /** Agents that are not to be tracked or are tracked already are not declared again. */
  lemma TrackedOnce(c: Config, n: Names, f: Flags)
    ensures !c.users || f.user ==> UserTriples(c, n, f.user) == []
    ensures !c.threads || f.rank ==> RankTriples(c, n, f.rank) == []
  {
  }

  /** The flags after a session. */
  function FlagsAfter(c: Config, f: Flags, rs: seq<Record>): Flags {
    var started := c.Emits() && rs != [];
    Flags(f.user || (started && c.users), f.rank || (started && c.threads), f.program || c.programs)
  }

  // ---- sizes ----

  function Bit(b: bool): nat {
    if b then 1 else 0
  }

  function RecordSize(c: Config, r: Record): nat {
    (if c.apis then 1 + Bit(c.programs) + Bit(c.durations) else 0)
    + (if c.Tracks(r.type_) then 2 + Bit(c.apis) + Bit(c.programs) else 0)
  }

  function RecordSizes(c: Config, rs: seq<Record>): nat {
    if rs == [] then 0 else RecordSizes(c, rs[..|rs| - 1]) + RecordSize(c, rs[|rs| - 1])
  }

  lemma RecordTriplesSize(c: Config, n: Names, r: Record)
    ensures |RecordTriples(c, n, r)| == RecordSize(c, r)
  {
  }

  lemma {:induction false} AllRecordsSize(c: Config, n: Names, rs: seq<Record>)
    ensures |AllRecordTriples(c, n, rs)| == RecordSizes(c, rs)
  {
    if rs != [] {
      AllRecordsSize(c, n, rs[..|rs| - 1]);
      RecordTriplesSize(c, n, rs[|rs| - 1]);
    }
  }

  lemma ProgramTriplesSize(c: Config, n: Names, endTime: string)
    ensures |ProgramTriples(c, n, false, endTime)| == if c.programs then 4 + Bit(c.threads) else 0
  {
  }

  lemma AgentTriplesSize(c: Config, n: Names, f: Flags, rs: seq<Record>)
    requires !f.user && !f.rank
    ensures |AgentTriples(c, n, f, rs)|
         == if c.Emits() && rs != [] then 2 * Bit(c.users) + (if c.threads then 2 + Bit(c.users) else 0) else 0
  {
  }

  /** The number of statements of a first session, to the last one. */
  lemma GraphSize(c: Config, n: Names, rs: seq<Record>, endTime: string)
    ensures |Graph(c, n, Flags(false, false, false), rs, endTime)|
         == (if c.Emits() then RecordSizes(c, rs) else 0)
            + (if c.Emits() && rs != [] then 2 * Bit(c.users) + (if c.threads then 2 + Bit(c.users) else 0) else 0)
            + (if c.programs then 4 + Bit(c.threads) else 0)
  {
    AllRecordsSize(c, n, rs);
    ProgramTriplesSize(c, n, endTime);
    AgentTriplesSize(c, n, Flags(false, false, false), rs);
  }

  // ---- links ----

  predicate IsLink(p: string) {
    p == DELEGATION || p == ASSOCIATION || p == ATTRIBUTION
  }

  ghost predicate DeclaredAgent(g: seq<Triple>, name: string) {
    Triple(name, TYPE, AGENT) in g
  }

  /** Every delegation, association and attribution leads to a declared agent. */
  ghost predicate Closed(g: seq<Triple>) {
    forall t :: t in g && IsLink(t.predicate_) ==> t.object_.Uri? && DeclaredAgent(g, t.object_.name)
  }

  /** Some record is linked to the program. */
  ghost predicate LinksProgram(c: Config, rs: seq<Record>) {
    c.Emits() && c.programs && exists r :: r in rs && (c.apis || c.Tracks(r.type_))
  }

  /** A session declares the name as an agent's, by its switches and the flags it starts with. */
  predicate Declares(c: Config, n: Names, f: Flags, rs: seq<Record>, name: string) {
    || (c.Emits() && rs != [] && c.users && !f.user && name == n.user)
    || (c.Emits() && rs != [] && c.threads && !f.rank && name == n.rank)
    || (c.programs && !f.program && name == n.program)
  }

  /** The record is linked to its operation by one of the three relations for agents. */
  predicate LinksOperation(c: Config, r: Record) {
    c.Emits() && c.apis && c.Tracks(r.type_) && IsLink(r.relation)
  }

  /** The exact condition for closure: every agent that this session links to is also declared by it. */
  ghost predicate NothingStale(c: Config, n: Names, f: Flags, rs: seq<Record>) {
    && (c.Emits() && rs != [] && c.threads && c.users && !f.rank ==> Declares(c, n, f, rs, n.user))
    && (LinksProgram(c, rs) ==> Declares(c, n, f, rs, n.program))
    && (c.programs && c.threads && !f.program ==> Declares(c, n, f, rs, n.rank))
    && (forall r :: r in rs && LinksOperation(c, r) ==> Declares(c, n, f, rs, ApiNode(r)))
  }

  /** The names of the three agents differ, and no record calls its own relation an agent link. */
  ghost predicate WellNamed(n: Names, rs: seq<Record>) {
    && n.user != n.rank && n.user != n.program && n.rank != n.program
    && (forall r :: r in rs ==> !IsLink(r.relation))
  }

  /** Then it is a condition on the flags that earlier sessions left. */
  lemma StaleFlags(c: Config, n: Names, f: Flags, rs: seq<Record>)
    requires WellNamed(n, rs)
    ensures var started := c.Emits() && rs != [];
            NothingStale(c, n, f, rs) <==>
            && (started && c.threads && c.users && !f.rank ==> !f.user)
            && (LinksProgram(c, rs) ==> !f.program)
            && (c.programs && c.threads && !f.program ==> started && !f.rank)
  {
  }

  lemma InRecordTriples(c: Config, n: Names, rs: seq<Record>, t: Triple)
    ensures t in AllRecordTriples(c, n, rs) <==> exists r :: r in rs && t in RecordTriples(c, n, r)
  {
    InFlatten(TriplesOf(c, n), rs, t);
  }

  lemma NoAgentInRecord(c: Config, n: Names, r: Record, t: Triple)
    requires t in RecordTriples(c, n, r)
    ensures t.object_ != AGENT || t.predicate_ != TYPE
  {
    assert |ApiNode(r)| > |AGENT.name|;
  }

  /** Records declare no agent. */
  lemma RecordsDeclareNoAgent(c: Config, n: Names, rs: seq<Record>, name: string)
    ensures Triple(name, TYPE, AGENT) !in AllRecordTriples(c, n, rs)
  {
    var t := Triple(name, TYPE, AGENT);
    InRecordTriples(c, n, rs, t);
    if t in AllRecordTriples(c, n, rs) {
      var r :| r in rs && t in RecordTriples(c, n, r);
      NoAgentInRecord(c, n, r, t);
    }
  }

  lemma UserDeclares(c: Config, n: Names, f: Flags, name: string)
    ensures Triple(name, TYPE, AGENT) in UserTriples(c, n, f.user) <==> c.users && !f.user && name == n.user
  {
  }

  lemma RankDeclares(c: Config, n: Names, f: Flags, name: string)
    ensures Triple(name, TYPE, AGENT) in RankTriples(c, n, f.rank) <==> c.threads && !f.rank && name == n.rank
  {
  }

  lemma ProgramDeclares(c: Config, n: Names, f: Flags, endTime: string, name: string)
    ensures Triple(name, TYPE, AGENT) in ProgramTriples(c, n, f.program, endTime)
            <==> c.programs && !f.program && name == n.program
  {
  }

  /** Who is declared an agent in a session. */
  lemma AgentsOf(c: Config, n: Names, f: Flags, rs: seq<Record>, endTime: string, name: string)
    ensures DeclaredAgent(Graph(c, n, f, rs, endTime), name) <==> Declares(c, n, f, rs, name)
  {
    RecordsDeclareNoAgent(c, n, rs, name);
    UserDeclares(c, n, f, name);
    RankDeclares(c, n, f, name);
    ProgramDeclares(c, n, f, endTime, name);
  }

  // ---- which links there are ----

  lemma RankLinks(c: Config, n: Names, f: Flags, t: Triple)
    requires IsLink(t.predicate_)
    ensures t in UserTriples(c, n, f.user) + RankTriples(c, n, f.rank)
            <==> c.threads && !f.rank && c.users && t == Triple(n.rank, DELEGATION, Uri(n.user))
  {
  }

  lemma ProgramLinks(c: Config, n: Names, f: Flags, endTime: string, t: Triple)
    requires IsLink(t.predicate_)
    ensures t in ProgramTriples(c, n, f.program, endTime)
            <==> c.programs && !f.program && c.threads && t == Triple(n.program, DELEGATION, Uri(n.rank))
  {
  }

  /** The links of records lead to the program, or to the operation if the record says so. */
  lemma RecordLinks(c: Config, n: Names, rs: seq<Record>, t: Triple)
    requires IsLink(t.predicate_) && c.Emits() && t in AllRecordTriples(c, n, rs)
    ensures || (t.object_ == Uri(n.program) && LinksProgram(c, rs))
            || exists r :: r in rs && LinksOperation(c, r) && t.object_ == Uri(ApiNode(r))
  {
    InRecordTriples(c, n, rs, t);
    var r :| r in rs && t in RecordTriples(c, n, r);
    LinkForms(c, n, r, t);
  }

  lemma LinkForms(c: Config, n: Names, r: Record, t: Triple)
    requires t in RecordTriples(c, n, r) && IsLink(t.predicate_)
    ensures || (t.object_ == Uri(n.program) && c.programs && (c.apis || c.Tracks(r.type_)))
            || (c.apis && c.Tracks(r.type_) && IsLink(r.relation) && t.object_ == Uri(ApiNode(r)))
  {
  }

  /** When records link to the program, one of their links is in the graph. */
  lemma SomeRecordLink(c: Config, n: Names, rs: seq<Record>) returns (t: Triple)
    requires LinksProgram(c, rs)
    ensures t in AllRecordTriples(c, n, rs) && IsLink(t.predicate_) && t.object_ == Uri(n.program)
  {
    var r :| r in rs && (c.apis || c.Tracks(r.type_));
    if c.apis {
      t := Triple(ApiNode(r), ASSOCIATION, Uri(n.program));
      assert ApiTriples(c, n, r)[1] == t;
    } else {
      t := Triple(r.object_, ATTRIBUTION, Uri(n.program));
      assert ObjectTriples(c, n, r)[2] == t;
    }
    assert t in RecordTriples(c, n, r);
    InRecordTriples(c, n, rs, t);
  }

  /** Main result on links: a session's graph is closed if and only if the agents that it links to are
      declared by it, and not by an earlier session whose flags are left standing. */
  lemma ClosedIff(c: Config, n: Names, f: Flags, rs: seq<Record>, endTime: string)
    ensures Closed(Graph(c, n, f, rs, endTime)) <==> NothingStale(c, n, f, rs)
  {
    if NothingStale(c, n, f, rs) {
      NothingStaleCloses(c, n, f, rs, endTime);
    }
    if Closed(Graph(c, n, f, rs, endTime)) {
      ClosedNothingStale(c, n, f, rs, endTime);
    }
  }

  lemma NothingStaleCloses(c: Config, n: Names, f: Flags, rs: seq<Record>, endTime: string)
    requires NothingStale(c, n, f, rs)
    ensures Closed(Graph(c, n, f, rs, endTime))
  {
    var g := Graph(c, n, f, rs, endTime);
    forall t | t in g && IsLink(t.predicate_) ensures t.object_.Uri? && DeclaredAgent(g, t.object_.name) {
      RankLinks(c, n, f, t);
      ProgramLinks(c, n, f, endTime, t);
      if c.Emits() && t in AllRecordTriples(c, n, rs) {
        RecordLinks(c, n, rs, t);
      }
      assert t.object_.Uri?;
      AgentsOf(c, n, f, rs, endTime, t.object_.name);
    }
  }

  lemma ClosedNothingStale(c: Config, n: Names, f: Flags, rs: seq<Record>, endTime: string)
    requires Closed(Graph(c, n, f, rs, endTime))
    ensures NothingStale(c, n, f, rs)
  {
    var g := Graph(c, n, f, rs, endTime);
    if c.Emits() && rs != [] && c.threads && c.users && !f.rank {
      var t := Triple(n.rank, DELEGATION, Uri(n.user));
      RankLinks(c, n, f, t);
      assert t in g;
      AgentsOf(c, n, f, rs, endTime, n.user);
    }
    if LinksProgram(c, rs) {
      var t := SomeRecordLink(c, n, rs);
      assert t in g;
      AgentsOf(c, n, f, rs, endTime, n.program);
    }
    if c.programs && c.threads && !f.program {
      var t := Triple(n.program, DELEGATION, Uri(n.rank));
      ProgramLinks(c, n, f, endTime, t);
      assert t in g;
      AgentsOf(c, n, f, rs, endTime, n.rank);
    }
    forall r | r in rs && LinksOperation(c, r) ensures Declares(c, n, f, rs, ApiNode(r)) {
      OperationDeclared(c, n, f, rs, endTime, r);
      AgentsOf(c, n, f, rs, endTime, ApiNode(r));
    }
  }

  /** The first session of a process with at least one record emitted is closed, under every setting
      of the switches, when no record is linked to its operation as to an agent. */
  lemma FirstSessionCloses(c: Config, n: Names, rs: seq<Record>, endTime: string)
    requires c.Emits() && rs != [] && forall r :: r in rs ==> !IsLink(r.relation)
    ensures Closed(Graph(c, n, Flags(false, false, false), rs, endTime))
  {
    ClosedIff(c, n, Flags(false, false, false), rs, endTime);
  }

  /** The next session of the same process is not, as soon as it links a record to the program: the
      flags are not reset, so the program is not declared again. */
  lemma SecondSessionDangles(c: Config, n: Names, f: Flags, rs: seq<Record>, rs': seq<Record>, endTime: string)
    requires n.program != n.user && n.program != n.rank && LinksProgram(c, rs')
    ensures !Closed(Graph(c, n, FlagsAfter(c, f, rs), rs', endTime))
  {
    ClosedIff(c, n, FlagsAfter(c, f, rs), rs', endTime);
  }

  /** The target of the relation between an object and the operation on it is always declared. */
  lemma OperationDeclared(c: Config, n: Names, f: Flags, rs: seq<Record>, endTime: string, r: Record)
    requires c.Emits() && r in rs && c.apis && c.Tracks(r.type_)
    ensures var g := Graph(c, n, f, rs, endTime);
            Triple(r.object_, r.relation, Uri(ApiNode(r))) in g && Triple(ApiNode(r), TYPE, ACTIVITY) in g
  {
    var link, declared := Triple(r.object_, r.relation, Uri(ApiNode(r))), Triple(ApiNode(r), TYPE, ACTIVITY);
    assert ObjectTriples(c, n, r)[2] == link && ApiTriples(c, n, r)[0] == declared;
    assert link in RecordTriples(c, n, r) && declared in RecordTriples(c, n, r);
    InRecordTriples(c, n, rs, link);
    InRecordTriples(c, n, rs, declared);
  }

  // ---- what the graph tells about each operation ----

  /** Operation nodes are told apart by the UUIDs at their ends. */
  lemma ApiNodeInjective(r: Record, s: Record)
    requires ApiNode(r) == ApiNode(s)
    ensures r.uuid == s.uuid && r.api == s.api
  {
    var a := ApiNode(r);
    assert a[|a| - 36..] == r.uuid;
    assert a[|a| - 36..] == s.uuid;
    assert a[..|a| - 38] == r.api;
    assert a[..|a| - 38] == s.api;
  }

  ghost predicate FreshUuids(rs: seq<Record>) {
    forall i, j :: 0 <= i < j < |rs| ==> rs[i].uuid != rs[j].uuid
  }

  /** The graph determines the duration of every operation: its node has exactly one elapsed time,
      the one recorded. */
  lemma DurationRecoverable(c: Config, n: Names, f: Flags, rs: seq<Record>, endTime: string, i: nat, d: nat)
    requires c.Emits() && c.apis && c.durations && FreshUuids(rs) && i < |rs|
    ensures Triple(ApiNode(rs[i]), ELAPSED, Literal(Unsigned(d))) in Graph(c, n, f, rs, endTime)
            <==> d == rs[i].duration
  {
    var r := rs[i];
    var t := Triple(ApiNode(r), ELAPSED, Literal(Unsigned(d)));
    InRecordTriples(c, n, rs, t);
    ElapsedNotOfAgents(c, n, f, endTime, t);
    if d == r.duration {
      ElapsedIn(c, n, r, t);
    } else if t in AllRecordTriples(c, n, rs) {
      var s :| s in rs && t in RecordTriples(c, n, s);
      ElapsedIn(c, n, s, t);
      ApiNodeInjective(r, s);
      UnsignedInjective(d, s.duration);
    }
  }

  lemma ElapsedNotOfAgents(c: Config, n: Names, f: Flags, endTime: string, t: Triple)
    requires t.predicate_ == ELAPSED
    ensures t !in UserTriples(c, n, f.user) && t !in RankTriples(c, n, f.rank)
    ensures t !in ProgramTriples(c, n, f.program, endTime)
  {
  }

  lemma ElapsedIn(c: Config, n: Names, r: Record, t: Triple)
    requires c.apis && c.durations && t.predicate_ == ELAPSED && t.object_.Literal?
    ensures t in RecordTriples(c, n, r) <==> t == Triple(ApiNode(r), ELAPSED, Literal(Unsigned(r.duration)))
  {
  }
}
