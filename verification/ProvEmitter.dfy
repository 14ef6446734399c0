/** The emitter: prov_fields overwritten and appended to in place, one-shot flags, and statements
    added one by one to the model. */
module ProvEmitter {
  import opened Decimal
  import opened ProvGraph

  class Emitter {
    const config: Config
    const names: Names
    // prov_fields
    var object_: string
    var type_: string
    var relation: string
    var api: string
    var duration: nat
    // USER_TRACKED, MPI_RANK_TRACKED, PROC_NAME_TRACKED
    var userTracked: bool
    var rankTracked: bool
    var programTracked: bool
    // model_prov
    var model: seq<Triple>

    /** provio_init: an empty model; the flags are those of the process. */
    constructor (config: Config, names: Names, flags: Flags)
      ensures this.config == config && this.names == names && CurrentFlags() == flags && model == []
    {
      this.config, this.names := config, names;
      object_, type_, relation, api, duration := "", "", "", "", 0;
      userTracked, rankTracked, programTracked := flags.user, flags.rank, flags.program;
      model := [];
    }

    function CurrentFlags(): Flags
      reads this
    {
      Flags(userTracked, rankTracked, programTracked)
    }

    /** librdf_model_add_statement */
    method Add(subject: string, predicate_: string, object_: Node)
      modifies `model
      ensures model == old(model) + [Triple(subject, predicate_, object_)]
    {
      model := model + [Triple(subject, predicate_, object_)];
    }

    /** add_user_record_Redland */
    method AddUserRecord()
      modifies `model, `userTracked
      ensures model == old(model) + UserTriples(config, names, old(userTracked))
      ensures userTracked == (old(userTracked) || config.users)
    {
      if config.users {
        if !userTracked {
          Add(names.user, TYPE, AGENT);
          Add(names.user, MEMBER, Uri("provio:User"));
          userTracked := true;
        }
      }
    }

    /** add_mpi_rank_record_Redland */
    method AddRankRecord()
      modifies `model, `rankTracked
      ensures model == old(model) + RankTriples(config, names, old(rankTracked))
      ensures rankTracked == (old(rankTracked) || config.threads)
    {
      if config.threads {
        if !rankTracked {
          Add(names.rank, TYPE, AGENT);
          Add(names.rank, MEMBER, Uri("provio:Thread"));
          if config.users {
            Add(names.rank, DELEGATION, Uri(names.user));
          }
          rankTracked := true;
        }
      }
    }

    /** add_io_api_record_Redland: alloc_api_uuid appends to `api` in place. */
    method AddApiRecord(uuid: Uuid, durationText: string)
      requires durationText == Unsigned(duration)
      modifies `model, `api
      ensures api == old(api) + (if config.apis then "--" + uuid else "")
      ensures model == old(model)
                       + ApiTriples(config, names, Record(object_, type_, relation, old(api), duration, uuid))
    {
      if config.apis {
        api := api + "--";
        api := api + uuid;
        assert api == old(api) + "--" + uuid;
        Add(api, TYPE, ACTIVITY);
        if config.programs {
          Add(api, ASSOCIATION, Uri(names.program));
        }
        if config.durations {
          Add(api, ELAPSED, Literal(durationText));
        }
      }
    }

    /** add_data_obj_record_Redland */
    method AddObjectRecord(ghost r: Record)
      requires r.object_ == object_ && r.type_ == type_ && r.relation == relation && (config.apis ==> ApiNode(r) == api)
      modifies `model
      ensures model == old(model) + ObjectTriples(config, names, r)
    {
      if config.Tracks(type_) {
        Add(object_, TYPE, ENTITY);
        Add(object_, MEMBER, Uri(type_));
        if config.apis {
          Add(object_, relation, Uri(api));
        }
        if config.programs {
          Add(object_, ATTRIBUTION, Uri(names.program));
        }
      }
    }

    /** The record as it stands in the fields, before a UUID is drawn. */
    function Current(uuid: Uuid): Record
      reads this
    {
      Record(object_, type_, relation, api, duration, uuid)
    }

    /** add_prov_record_Redland */
    method AddProvRecordRedland(uuid: Uuid, durationText: string)
      requires durationText == Unsigned(duration)
      modifies `model, `api, `userTracked, `rankTracked
      ensures model == old(model) + UserTriples(config, names, old(userTracked))
                       + RankTriples(config, names, old(rankTracked)) + RecordTriples(config, names, old(Current(uuid)))
      ensures userTracked == (old(userTracked) || config.users)
      ensures rankTracked == (old(rankTracked) || config.threads)
    {
      ghost var r := Current(uuid);
      AddUserRecord();
      AddRankRecord();
      ghost var agents := model;
      AddApiRecord(uuid, durationText);
      AddObjectRecord(r);
      Appended(agents, ApiTriples(config, names, r), ObjectTriples(config, names, r));
    }

    /** add_prov_record: the switch over the level and the format. */
    method AddProvRecord(uuid: Uuid)
      modifies `model, `api, `userTracked, `rankTracked
      ensures config.Emits() ==>
                && model == old(model) + UserTriples(config, names, old(userTracked))
                            + RankTriples(config, names, old(rankTracked))
                            + RecordTriples(config, names, old(Current(uuid)))
                && userTracked == (old(userTracked) || config.users)
                && rankTracked == (old(rankTracked) || config.threads)
      ensures !config.Emits() ==>
                model == old(model) && userTracked == old(userTracked) && rankTracked == old(rankTracked)
    {
      match config.level
      case FileOnly | FileAndPrint =>
        if config.lineFormat == "rdf" || config.lineFormat == "RDF" {
          AddProvRecordRedland(uuid, Unsigned(duration));
        }
      case _ =>
    }

    /** What an instrumented callback does: prov_fill_data_object, prov_fill_relation, prov_fill_io_api
        and add_prov_record. */
    method Instrument(r: Record)
      modifies this
      ensures config.Emits() ==>
                && model == old(model) + UserTriples(config, names, old(userTracked))
                            + RankTriples(config, names, old(rankTracked)) + RecordTriples(config, names, r)
                && userTracked == (old(userTracked) || config.users)
                && rankTracked == (old(rankTracked) || config.threads)
      ensures !config.Emits() ==>
                model == old(model) && userTracked == old(userTracked) && rankTracked == old(rankTracked)
      ensures programTracked == old(programTracked)
    {
      object_, type_ := r.object_, r.type_;
      relation := r.relation;
      api, duration := r.api, r.duration;
      assert Current(r.uuid) == r;
      AddProvRecord(r.uuid);
    }

    /** The record part of provio_helper_teardown: add_program_record_Redland, whatever the level. */
    method Teardown(endTime: string)
      modifies `model, `programTracked
      ensures model == old(model) + ProgramTriples(config, names, old(programTracked), endTime)
      ensures programTracked == (old(programTracked) || config.programs)
    {
      if config.programs {
        if !programTracked {
          Add(names.program, TYPE, AGENT);
          Add(names.program, MEMBER, Uri("provio:Program"));
          if config.threads {
            Add(names.program, DELEGATION, Uri(names.rank));
          }
          Add(names.program, STARTED, Literal(names.startTime));
          programTracked := true;
        }
        Add(names.program, ENDED, Literal(endTime));
      }
    }
  }

  lemma Appended<T>(a: seq<T>, b: seq<T>, c: seq<T>)
    ensures a + b + c == a + (b + c)
  {
  }

  /** The emitter after the records `rs`, with the flags it started with. */
  ghost predicate Emitted(e: Emitter, flags: Flags, rs: seq<Record>)
    reads e
  {
    && e.programTracked == flags.program
    && e.userTracked == FlagsAfter(e.config, flags, rs).user
    && e.rankTracked == FlagsAfter(e.config, flags, rs).rank
    && e.model == Before(e.config, e.names, flags, rs)
  }

  lemma FlagsGrow(c: Config, f: Flags, rs: seq<Record>, r: Record)
    ensures var before, after := FlagsAfter(c, f, rs), FlagsAfter(c, f, rs + [r]);
            && after.user == (before.user || (c.Emits() && c.users))
            && after.rank == (before.rank || (c.Emits() && c.threads))
  {
  }

  lemma NothingEmitted(c: Config, n: Names, f: Flags, rs: seq<Record>, r: Record)
    requires !c.Emits()
    ensures Before(c, n, f, rs + [r]) == Before(c, n, f, rs)
  {
  }

  /** One record more. */
  method EmitRecord(e: Emitter, ghost flags: Flags, ghost rs: seq<Record>, r: Record)
    requires Emitted(e, flags, rs)
    modifies e
    ensures Emitted(e, flags, rs + [r])
  {
    FlagsGrow(e.config, flags, rs, r);
    if e.config.Emits() {
      OneMoreRecord(e.config, e.names, flags, rs, r);
    } else {
      NothingEmitted(e.config, e.names, flags, rs, r);
    }
    e.Instrument(r);
  }

  /** A whole session: the statements added one by one are the graph of the session, and the flags left
      behind are those that the next session of the process starts with. */
  method Session(config: Config, names: Names, flags: Flags, records: seq<Record>, endTime: string)
    returns (model: seq<Triple>, flags': Flags)
    ensures model == Graph(config, names, flags, records, endTime)
    ensures flags' == FlagsAfter(config, flags, records)
  {
    var e := new Emitter(config, names, flags);
    for i := 0 to |records|
      invariant fresh(e) && e.config == config && e.names == names
      invariant Emitted(e, flags, records[..i])
    {
      assert records[..i + 1] == records[..i] + [records[i]];
      EmitRecord(e, flags, records[..i], records[i]);
    }
    assert records[..|records|] == records;
    e.Teardown(endTime);
    model, flags' := e.model, e.CurrentFlags();
  }
}
