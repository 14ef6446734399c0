/** What is in the graph of a session, statement by statement, in terms of the switches, the flags and the
    records alone. */
module ProvContents {
  import opened Decimal
  import opened ProvGraph

  /** The statements of a session, one by one: the users and ranks if records are emitted and they were not
      declared before, the operations, the objects of the types switched on, and the program. */
  lemma GraphIs(c: Config, n: Names, f: Flags, rs: seq<Record>, endTime: string, t: Triple)
    ensures var emits := (c.level == FileOnly || c.level == FileAndPrint)
                         && (c.lineFormat == "rdf" || c.lineFormat == "RDF");
            t in Graph(c, n, f, rs, endTime) <==>
            || (emits && rs != [] && (IsOfUser(c, n, f, t) || IsOfRank(c, n, f, t)))
            || (emits && exists r :: r in rs && (IsOfOperation(c, n, r, t) || IsOfObject(c, n, r, t)))
            || IsOfProgram(c, n, f, endTime, t)
  {
    AgentsIn(c, n, f, t);
    ProgramIn(c, n, f, endTime, t);
    if c.Emits() {
      InRecordTriples(c, n, rs, t);
      forall r | r in rs
        ensures t in RecordTriples(c, n, r) <==> IsOfOperation(c, n, r, t) || IsOfObject(c, n, r, t)
      {
        OperationIn(c, n, r, t);
        ObjectIn(c, n, r, t);
      }
    }
  }

  ghost predicate IsOfUser(c: Config, n: Names, f: Flags, t: Triple) {
    c.users && !f.user
    && (|| t == Triple(n.user, "prov:type", Uri("prov:Agent"))
        || t == Triple(n.user, "prov:wasMemberOf", Uri("provio:User")))
  }

  ghost predicate IsOfRank(c: Config, n: Names, f: Flags, t: Triple) {
    c.threads && !f.rank
    && (|| t == Triple(n.rank, "prov:type", Uri("prov:Agent"))
        || t == Triple(n.rank, "prov:wasMemberOf", Uri("provio:Thread"))
        || (c.users && t == Triple(n.rank, "prov:actedOnBehalfOf", Uri(n.user))))
  }

  ghost predicate IsOfOperation(c: Config, n: Names, r: Record, t: Triple) {
    c.apis && t.subject == r.api + "--" + r.uuid
    && (|| (t.predicate_ == "prov:type" && t.object_ == Uri("prov:Activity"))
        || (c.programs && t.predicate_ == "prov:wasAssociatedWith" && t.object_ == Uri(n.program))
        || (c.durations && t.predicate_ == "provio:elapsed" && t.object_ == Literal(Unsigned(r.duration))))
  }

  /** Each of the five types has its own switch. */
  predicate SwitchedOn(c: Config, type_: string) {
    match type_
    case "provio:File" => c.files
    case "provio:Group" => c.groups
    case "provio:Dataset" => c.datasets
    case "provio:Attr" => c.attributes
    case "provio:Datatype" => c.datatypes
    case _ => false
  }

  ghost predicate IsOfObject(c: Config, n: Names, r: Record, t: Triple) {
    && SwitchedOn(c, r.type_)
    && t.subject == r.object_
    && (|| (t.predicate_ == "prov:type" && t.object_ == Uri("prov:Entity"))
        || (t.predicate_ == "prov:wasMemberOf" && t.object_ == Uri(r.type_))
        || (c.apis && t.predicate_ == r.relation && t.object_ == Uri(r.api + "--" + r.uuid))
        || (c.programs && t.predicate_ == "prov:wasAttributedTo" && t.object_ == Uri(n.program)))
  }

  ghost predicate IsOfProgram(c: Config, n: Names, f: Flags, endTime: string, t: Triple) {
    c.programs && t.subject == n.program
    && (|| (t.predicate_ == "prov:endedAtTime" && t.object_ == Literal(endTime))
        || (!f.program
            && (|| (t.predicate_ == "prov:type" && t.object_ == Uri("prov:Agent"))
                || (t.predicate_ == "prov:wasMemberOf" && t.object_ == Uri("provio:Program"))
                || (c.threads && t.predicate_ == "prov:actedOnBehalfOf" && t.object_ == Uri(n.rank))
                || (t.predicate_ == "prov:startedAtTime" && t.object_ == Literal(n.startTime)))))
  }

  lemma AgentsIn(c: Config, n: Names, f: Flags, t: Triple)
    ensures t in UserTriples(c, n, f.user) <==> IsOfUser(c, n, f, t)
    ensures t in RankTriples(c, n, f.rank) <==> IsOfRank(c, n, f, t)
  {
  }

  lemma OperationIn(c: Config, n: Names, r: Record, t: Triple)
    ensures t in ApiTriples(c, n, r) <==> IsOfOperation(c, n, r, t)
  {
  }

  lemma ObjectIn(c: Config, n: Names, r: Record, t: Triple)
    ensures t in ObjectTriples(c, n, r) <==> IsOfObject(c, n, r, t)
  {
  }

  lemma ProgramIn(c: Config, n: Names, f: Flags, endTime: string, t: Triple)
    ensures t in ProgramTriples(c, n, f.program, endTime) <==> IsOfProgram(c, n, f, endTime, t)
  {
  }

  lemma NodeIsNoClass(r: Record, class_: string)
    requires |class_| < 38
    ensures Uri(r.api + "--" + r.uuid) != Uri(class_)
  {
    assert |r.api + "--" + r.uuid| >= 38;
  }

  lemma EntityIff(c: Config, n: Names, f: Flags, rs: seq<Record>, endTime: string, x: string)
    ensures Triple(x, "prov:type", Uri("prov:Entity")) in Graph(c, n, f, rs, endTime)
            <==> c.Emits() && exists r :: r in rs && r.object_ == x && SwitchedOn(c, r.type_)
  {
    var t := Triple(x, "prov:type", Uri("prov:Entity"));
    GraphIs(c, n, f, rs, endTime, t);
    forall r | r in rs
      ensures IsOfOperation(c, n, r, t) || IsOfObject(c, n, r, t) <==> r.object_ == x && SwitchedOn(c, r.type_)
    {
      NodeIsNoClass(r, "prov:Entity");
    }
  }

  /** An object is a member of one of the classes for objects exactly as a record with that type. */
  lemma ClassIff(c: Config, n: Names, f: Flags, rs: seq<Record>, endTime: string, x: string, class_: string)
    requires SwitchedType(class_)
    ensures Triple(x, "prov:wasMemberOf", Uri(class_)) in Graph(c, n, f, rs, endTime)
            <==> c.Emits() && SwitchedOn(c, class_) && exists r :: r in rs && r.object_ == x && r.type_ == class_
  {
    var t := Triple(x, "prov:wasMemberOf", Uri(class_));
    GraphIs(c, n, f, rs, endTime, t);
    forall r | r in rs
      ensures IsOfOperation(c, n, r, t) || IsOfObject(c, n, r, t)
              <==> r.object_ == x && r.type_ == class_ && SwitchedOn(c, class_)
    {
      NodeIsNoClass(r, class_);
    }
  }

  predicate SwitchedType(type_: string) {
    type_ in ["provio:File", "provio:Group", "provio:Dataset", "provio:Attr", "provio:Datatype"]
  }

  /** Which switch records which type: when object names are distinct, the object of a record is an entity
      and a member of its class if and only if the switch of its type is on; no other type is recorded. */
  lemma TypesRecorded(c: Config, n: Names, f: Flags, rs: seq<Record>, endTime: string, r: Record)
    requires c.Emits() && r in rs && forall q :: q in rs && q.object_ == r.object_ ==> q.type_ == r.type_
    ensures var g := Graph(c, n, f, rs, endTime);
            var entity := Triple(r.object_, "prov:type", Uri("prov:Entity"));
            var member := Triple(r.object_, "prov:wasMemberOf", Uri(r.type_));
            && (r.type_ == "provio:File" ==> (entity in g <==> c.files) && (member in g <==> c.files))
            && (r.type_ == "provio:Group" ==> (entity in g <==> c.groups) && (member in g <==> c.groups))
            && (r.type_ == "provio:Dataset" ==> (entity in g <==> c.datasets) && (member in g <==> c.datasets))
            && (r.type_ == "provio:Attr" ==> (entity in g <==> c.attributes) && (member in g <==> c.attributes))
            && (r.type_ == "provio:Datatype" ==> (entity in g <==> c.datatypes) && (member in g <==> c.datatypes))
            && (!SwitchedType(r.type_) ==> entity !in g)
  {
    EntityIff(c, n, f, rs, endTime, r.object_);
    if SwitchedType(r.type_) { ClassIff(c, n, f, rs, endTime, r.object_, r.type_); }
  }

  /** The times of the program: its start when it is declared, its end at every teardown. */
  lemma ProgramTimes(c: Config, n: Names, f: Flags, rs: seq<Record>, endTime: string, time: string)
    ensures Triple(n.program, "prov:startedAtTime", Literal(time)) in Graph(c, n, f, rs, endTime)
            <==> c.programs && !f.program && time == n.startTime
    ensures Triple(n.program, "prov:endedAtTime", Literal(time)) in Graph(c, n, f, rs, endTime)
            <==> c.programs && time == endTime
  {
    StartTime(c, n, f, rs, endTime, time);
    EndTime(c, n, f, rs, endTime, time);
  }

  lemma StartTime(c: Config, n: Names, f: Flags, rs: seq<Record>, endTime: string, time: string)
    ensures Triple(n.program, "prov:startedAtTime", Literal(time)) in Graph(c, n, f, rs, endTime)
            <==> c.programs && !f.program && time == n.startTime
  {
    GraphIs(c, n, f, rs, endTime, Triple(n.program, "prov:startedAtTime", Literal(time)));
  }

  lemma EndTime(c: Config, n: Names, f: Flags, rs: seq<Record>, endTime: string, time: string)
    ensures Triple(n.program, "prov:endedAtTime", Literal(time)) in Graph(c, n, f, rs, endTime)
            <==> c.programs && time == endTime
  {
    GraphIs(c, n, f, rs, endTime, Triple(n.program, "prov:endedAtTime", Literal(time)));
  }

  /** Each agent is a member of its own class, and nothing else is. */
  lemma AgentClasses(c: Config, n: Names, f: Flags, rs: seq<Record>, endTime: string, x: string)
    ensures var g := Graph(c, n, f, rs, endTime);
            && (Triple(x, "prov:wasMemberOf", Uri("provio:User")) in g
                <==> c.Emits() && rs != [] && c.users && !f.user && x == n.user)
            && (Triple(x, "prov:wasMemberOf", Uri("provio:Thread")) in g
                <==> c.Emits() && rs != [] && c.threads && !f.rank && x == n.rank)
            && (Triple(x, "prov:wasMemberOf", Uri("provio:Program")) in g
                <==> c.programs && !f.program && x == n.program)
  {
    UserClass(c, n, f, rs, endTime, x);
    RankClass(c, n, f, rs, endTime, x);
    ProgramClass(c, n, f, rs, endTime, x);
  }

  lemma UserClass(c: Config, n: Names, f: Flags, rs: seq<Record>, endTime: string, x: string)
    ensures Triple(x, "prov:wasMemberOf", Uri("provio:User")) in Graph(c, n, f, rs, endTime)
            <==> c.Emits() && rs != [] && c.users && !f.user && x == n.user
  {
    var t := Triple(x, "prov:wasMemberOf", Uri("provio:User"));
    NoneOfClass(c, n, rs, t);
    GraphIs(c, n, f, rs, endTime, t);
  }

  lemma RankClass(c: Config, n: Names, f: Flags, rs: seq<Record>, endTime: string, x: string)
    ensures Triple(x, "prov:wasMemberOf", Uri("provio:Thread")) in Graph(c, n, f, rs, endTime)
            <==> c.Emits() && rs != [] && c.threads && !f.rank && x == n.rank
  {
    var t := Triple(x, "prov:wasMemberOf", Uri("provio:Thread"));
    NoneOfClass(c, n, rs, t);
    GraphIs(c, n, f, rs, endTime, t);
  }

  lemma ProgramClass(c: Config, n: Names, f: Flags, rs: seq<Record>, endTime: string, x: string)
    ensures Triple(x, "prov:wasMemberOf", Uri("provio:Program")) in Graph(c, n, f, rs, endTime)
            <==> c.programs && !f.program && x == n.program
  {
    var t := Triple(x, "prov:wasMemberOf", Uri("provio:Program"));
    NoneOfClass(c, n, rs, t);
    GraphIs(c, n, f, rs, endTime, t);
  }

  lemma NoneOfClass(c: Config, n: Names, rs: seq<Record>, t: Triple)
    requires t.predicate_ == "prov:wasMemberOf" && t.object_.Uri? && |t.object_.name| < 38
    requires !SwitchedType(t.object_.name)
    ensures forall r :: r in rs ==> !IsOfOperation(c, n, r, t) && !IsOfObject(c, n, r, t)
  {
    forall r | r in rs ensures !IsOfOperation(c, n, r, t) && !IsOfObject(c, n, r, t) {
      NodeIsNoClass(r, t.object_.name);
    }
  }

  /** Over two sessions of a process the flags carry over: what the first one declared the second one does
      not, and what it did not the second one does on the same terms. */
  lemma DeclaredOnce(c: Config, n: Names, f: Flags, rs: seq<Record>, rs': seq<Record>, endTime: string)
    requires n.user != n.rank && n.user != n.program && n.rank != n.program
    ensures var first, second := Graph(c, n, f, rs, endTime), Graph(c, n, FlagsAfter(c, f, rs), rs', endTime);
            && (DeclaredAgent(second, n.user) <==>
                  c.Emits() && rs' != [] && c.users && !f.user && !DeclaredAgent(first, n.user))
            && (DeclaredAgent(second, n.rank) <==>
                  c.Emits() && rs' != [] && c.threads && !f.rank && !DeclaredAgent(first, n.rank))
            && !DeclaredAgent(second, n.program)
  {
    AgentsOf(c, n, f, rs, endTime, n.user);
    AgentsOf(c, n, f, rs, endTime, n.rank);
    AgentsOf(c, n, f, rs, endTime, n.program);
    AgentsOf(c, n, FlagsAfter(c, f, rs), rs', endTime, n.user);
    AgentsOf(c, n, FlagsAfter(c, f, rs), rs', endTime, n.rank);
    AgentsOf(c, n, FlagsAfter(c, f, rs), rs', endTime, n.program);
  }
}
