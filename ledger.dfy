/** The local run/checkpoint ledger: an append-only list of ingestion runs
    and a last-write-wins map from source name to checkpoint value, held in
    memory (the JSON file that persists it is not modelled). */
module Ledger {
  import opened Common

  /** Run scopes used by the pipeline stages. */
  const WorldBankApiScope := "world_bank_api"
  const WikipediaCo2Scope := "wikipedia_co2"
  const CuratedJoinScope := "curated_join"

  const Running := "RUNNING"
  const Success := "SUCCESS"
  const Failed := "FAILED"

  /** One entry of the `runs` list. */
  datatype RunRecord = RunRecord(
    ingestionRunId: string,
    runScope: string,
    startTs: string,
    endTs: Option<string>,
    status: string,
    rowsProcessed: Option<int>,
    lastCheckpoint: Option<string>,
    errorMessage: Option<string>)

  /** The record `start_run` appends: open, with every result field null. */
  function OpenRun(id: string, scope: string, now: string): (r: RunRecord)
    ensures r.ingestionRunId == id && r.runScope == scope && r.startTs == now
    ensures r.status == Running
    ensures r.endTs.None? && r.rowsProcessed.None? && r.lastCheckpoint.None? && r.errorMessage.None?
  {
    RunRecord(id, scope, now, None, Running, None, None, None)
  }

  /** The record after `end_run`: end time and status always set, the three
      optional fields overwritten only by non-null arguments, the checkpoint
      kept as its `str()` form. */
  function CloseRun(run: RunRecord, status: string, now: string, rows: Option<int>,
                    checkpoint: Option<Json>, error: Option<string>): (c: RunRecord)
    ensures c.ingestionRunId == run.ingestionRunId && c.runScope == run.runScope
    ensures c.startTs == run.startTs
    ensures c.endTs == Some(now) && c.status == status
    ensures rows.None? ==> c.rowsProcessed == run.rowsProcessed
    ensures rows.Some? ==> c.rowsProcessed == rows
    ensures checkpoint.None? ==> c.lastCheckpoint == run.lastCheckpoint
    ensures checkpoint.Some? ==> c.lastCheckpoint == Some(PyStr(checkpoint.value))
    ensures error.None? ==> c.errorMessage == run.errorMessage
    ensures error.Some? ==> c.errorMessage == error
  {
    run.(endTs := Some(now), status := status,
         rowsProcessed := if rows.Some? then rows else run.rowsProcessed,
         lastCheckpoint := if checkpoint.Some? then Some(PyStr(checkpoint.value)) else run.lastCheckpoint,
         errorMessage := if error.Some? then error else run.errorMessage)
  }

  /** Index of the last run carrying `id`, scanning from the end. */
  function FindLast(runs: seq<RunRecord>, id: string): (r: Option<nat>)
    ensures r.None? <==> forall j :: 0 <= j < |runs| ==> runs[j].ingestionRunId != id
    ensures r.Some? ==> r.value < |runs| && runs[r.value].ingestionRunId == id
    ensures r.Some? ==> forall j :: r.value < j < |runs| ==> runs[j].ingestionRunId != id
  {
    if runs == [] then None
    else if runs[|runs| - 1].ingestionRunId == id then Some(|runs| - 1)
    else FindLast(runs[..|runs| - 1], id)
  }

  /** The KeyError `end_run` raises for an unknown id (`repr` of the id
      written with plain single quotes). */
  function NoSuchRun(id: string): Failure
  {
    Failure(KeyError, "No ingestion run found with id='" + id + "'")
  }

  predicate InScope(scope: Option<string>, run: RunRecord)
  {
    scope.None? || run.runScope == scope.value
  }

  /** `list_runs`: the runs of a scope (all runs without one), in order. */
  function RunsOfScope(runs: seq<RunRecord>, scope: Option<string>): (r: seq<RunRecord>)
    ensures forall x :: x in r <==> x in runs && InScope(scope, x)
  {
    Filter(runs, (x: RunRecord) => InScope(scope, x))
  }

  /** Without a scope `list_runs` is a copy of the whole list. */
  lemma ListAllRuns(runs: seq<RunRecord>)
    ensures RunsOfScope(runs, None) == runs
  {
    FilterAll(runs, (x: RunRecord) => InScope(None, x));
  }

  /** Appending a run extends the listing of its scope by that run and
      leaves every other scope's listing as it was. */
  lemma RunsOfScopeAppend(runs: seq<RunRecord>, run: RunRecord, scope: Option<string>)
    ensures RunsOfScope(runs + [run], scope)
         == RunsOfScope(runs, scope) + (if InScope(scope, run) then [run] else [])
  {
    var p := (x: RunRecord) => InScope(scope, x);
    FilterAppend(runs, [run], p);
    FilterSingleton(run, p);
  }

  /** `load_checkpoint`: the stored value, or `default` for an unknown source. */
  function Lookup(checkpoints: map<string, Json>, source: string, default: Json): (v: Json)
    ensures source in checkpoints ==> v == checkpoints[source]
    ensures source !in checkpoints ==> v == default
  {
    if source in checkpoints then checkpoints[source] else default
  }

  /** A saved checkpoint is read back, and other sources keep theirs. */
  lemma LoadAfterSave(checkpoints: map<string, Json>, source: string, value: Json,
                      other: string, default: Json)
    ensures Lookup(checkpoints[source := value], source, default) == value
    ensures other != source ==>
      Lookup(checkpoints[source := value], other, default) == Lookup(checkpoints, other, default)
  {
  }

  class LocalStore {
    var runs: seq<RunRecord>
    var checkpoints: map<string, Json>

    /** A store that does not exist yet reads as no runs and no checkpoints. */
    constructor ()
      ensures runs == [] && checkpoints == map[]
    {
      runs := [];
      checkpoints := map[];
    }

    /** `start_run`: the id and the clock are supplied by the caller. */
    method StartRun(scope: string, id: string, now: string) returns (runId: string)
      modifies this
      ensures runId == id
      ensures runs == old(runs) + [OpenRun(id, scope, now)]
      ensures checkpoints == old(checkpoints)
    {
      runs := runs + [OpenRun(id, scope, now)];
      runId := id;
    }

    /** `end_run`: closes the last run with `id`, or raises KeyError and
        changes nothing; never touches the checkpoints. */
    method EndRun(id: string, status: string, now: string, rows: Option<int>,
                  checkpoint: Option<Json>, error: Option<string>)
      returns (r: Result<RunRecord>)
      modifies this
      ensures checkpoints == old(checkpoints)
      ensures FindLast(old(runs), id).None? ==> r == Err(NoSuchRun(id)) && runs == old(runs)
      ensures FindLast(old(runs), id).Some? ==>
        var i := FindLast(old(runs), id).value;
        r == Ok(CloseRun(old(runs)[i], status, now, rows, checkpoint, error))
        && runs == old(runs)[i := r.value]
    {
      var i := |runs|;
      while i > 0
        invariant 0 <= i <= |runs|
        invariant runs == old(runs) && checkpoints == old(checkpoints)
        invariant forall j :: i <= j < |runs| ==> runs[j].ingestionRunId != id
      {
        if runs[i - 1].ingestionRunId == id {
          var closed := CloseRun(runs[i - 1], status, now, rows, checkpoint, error);
          runs := runs[i - 1 := closed];
          return Ok(closed);
        }
        i := i - 1;
      }
      return Err(NoSuchRun(id));
    }

    /** `save_checkpoint`: last write wins, runs untouched. */
    method SaveCheckpoint(source: string, value: Json)
      modifies this
      ensures checkpoints == old(checkpoints)[source := value]
      ensures runs == old(runs)
    {
      checkpoints := checkpoints[source := value];
    }

    function LoadCheckpoint(source: string, default: Json): Json
      reads this
    {
      Lookup(checkpoints, source, default)
    }

    /** `get_last_run`: the newest run, or the newest of a scope. */
    method GetLastRun(scope: Option<string>) returns (r: Option<RunRecord>)
      ensures runs == [] ==> r.None?
      ensures scope.None? && runs != [] ==> r == Some(runs[|runs| - 1])
      ensures scope.Some? ==>
        (r.None? <==> forall j :: 0 <= j < |runs| ==> runs[j].runScope != scope.value)
      ensures scope.Some? && r.Some? ==>
        exists k :: 0 <= k < |runs| && runs[k] == r.value && runs[k].runScope == scope.value
          && forall j :: k < j < |runs| ==> runs[j].runScope != scope.value
    {
      if runs == [] {
        return None;
      }
      if scope.None? {
        return Some(runs[|runs| - 1]);
      }
      var i := |runs|;
      while i > 0
        invariant 0 <= i <= |runs|
        invariant forall j :: i <= j < |runs| ==> runs[j].runScope != scope.value
      {
        if runs[i - 1].runScope == scope.value {
          return Some(runs[i - 1]);
        }
        i := i - 1;
      }
      return None;
    }

    function ListRuns(scope: Option<string>): seq<RunRecord>
      reads this
    {
      RunsOfScope(runs, scope)
    }

    /** `reset_local_store`: empties both collections and reports their sizes. */
    method ResetLocalStore() returns (runsCleared: nat, checkpointsCleared: nat)
      modifies this
      ensures runsCleared == |old(runs)| && checkpointsCleared == |old(checkpoints)|
      ensures runs == [] && checkpoints == map[]
    {
      runsCleared := |runs|;
      checkpointsCleared := |checkpoints|;
      runs := [];
      checkpoints := map[];
    }
  }
}
