/** The runs table: rows keyed by run id, changed one statement at a time under a mutex. */
module Store {
  import opened Text

  type RunId = string

  datatype RunStatus = Queued | Running | Success | Failure | Error | Canceled

  datatype Row = Row(status: RunStatus, exitCode: Option<int>, started: int)

  type Rows = map<RunId, Row>

  predicate IsTerminal(s: RunStatus) {
    s in {Success, Failure, Error, Canceled}
  }

  /** Inserting an id that exists violates the primary key and changes nothing. */
  function Created(rows: Rows, id: RunId, now: int): Rows {
    if id in rows then rows else rows[id := Row(Queued, None, now)]
  }

  /** Updating an id that does not exist changes nothing. */
  function Updated(rows: Rows, id: RunId, status: RunStatus, exitCode: Option<int>): Rows {
    if id in rows then rows[id := Row(status, exitCode, rows[id].started)] else rows
  }

  /** A statement whose context is done, or that the database refuses, is not `live` and has no effect. */
  class RunStore {
    var rows: Rows

    constructor ()
      ensures rows == map[]
    {
      rows := map[];
    }

    method CreateRun(live: bool, id: RunId, now: int) returns (ok: bool)
      modifies this
      ensures ok <==> live && id !in old(rows)
      ensures rows == if live then Created(old(rows), id, now) else old(rows)
      ensures rows == if ok then old(rows)[id := Row(Queued, None, now)] else old(rows)
    {
      ok := live && id !in rows;
      if ok {
        rows := rows[id := Row(Queued, None, now)];
      }
    }

    method UpdateRunStatus(live: bool, id: RunId, status: RunStatus, exitCode: Option<int>) returns (ok: bool)
      modifies this
      ensures ok <==> live
      ensures rows == if live then Updated(old(rows), id, status, exitCode) else old(rows)
      ensures rows == if live && id in old(rows) then old(rows)[id := Row(status, exitCode, old(rows)[id].started)]
                      else old(rows)
    {
      ok := live;
      if live && id in rows {
        rows := rows[id := Row(status, exitCode, rows[id].started)];
      }
    }

    method Newest(ids: set<RunId>) returns (best: RunId)
      requires ids != {} && ids <= rows.Keys
      ensures best in ids && forall id | id in ids :: rows[id].started <= rows[best].started
    {
      best :| best in ids;
      var todo := ids - {best};
      while todo != {}
        invariant best in ids && todo <= ids
        invariant forall id | id in ids && id !in todo :: rows[id].started <= rows[best].started
        decreases todo
      {
        var id :| id in todo;
        if rows[id].started > rows[best].started {
          best := id;
        }
        todo := todo - {id};
      }
    }

    /** The newest rows first, as many as there are up to the limit, which is 10000 when none is given; rows left out
        are not newer than any row listed. */
    method ListRuns(limit: int) returns (r: seq<(RunId, RunStatus)>)
      ensures forall i | 0 <= i < |r| :: r[i].0 in rows && rows[r[i].0].status == r[i].1
      ensures forall i, j | 0 <= i < j < |r| :: r[i].0 != r[j].0
      ensures forall i, j | 0 <= i < j < |r| :: rows[r[i].0].started >= rows[r[j].0].started
      ensures forall i, id | 0 <= i < |r| && id in rows && (forall j | 0 <= j < |r| :: r[j].0 != id) ::
                rows[r[i].0].started >= rows[id].started
      ensures var cap := if limit <= 0 then 10000 else limit;
              && |r| == (if |rows.Keys| <= cap then |rows.Keys| else cap)
              && (|rows.Keys| <= cap ==> forall id | id in rows :: exists i | 0 <= i < |r| :: r[i].0 == id)
    {
      var cap := if limit <= 0 then 10000 else limit;
      r := [];
      var todo := rows.Keys;
      assert Picked(rows, r, todo) && NewestFirst(rows, r, todo);
      while todo != {} && |r| < cap
        invariant Picked(rows, r, todo) && NewestFirst(rows, r, todo) && |r| <= cap && |r| + |todo| == |rows.Keys|
        decreases todo
      {
        var id := Newest(todo);
        hide Picked, NewestFirst;
        PickOne(rows, r, todo, id);
        NewestNext(rows, r, todo, id);
        r := r + [(id, rows[id].status)];
        todo := todo - {id};
      }
    }
  }

  /** `r` lists the rows outside `todo`, each once and with its status. */
  ghost predicate Picked(rows: Rows, r: seq<(RunId, RunStatus)>, todo: set<RunId>) {
    && todo <= rows.Keys
    && (forall i | 0 <= i < |r| :: r[i].0 in rows && rows[r[i].0].status == r[i].1 && r[i].0 !in todo)
    && (forall i, j | 0 <= i < j < |r| :: r[i].0 != r[j].0)
    && (forall id | id in rows && id !in todo :: exists i | 0 <= i < |r| :: r[i].0 == id)
  }

  /** `r` is sorted, newest first, and no row of `todo` is newer. */
  ghost predicate NewestFirst(rows: Rows, r: seq<(RunId, RunStatus)>, todo: set<RunId>)
    requires Picked(rows, r, todo)
  {
    && (forall i, j | 0 <= i < j < |r| :: rows[r[i].0].started >= rows[r[j].0].started)
    && (forall i, id | 0 <= i < |r| && id in todo :: rows[r[i].0].started >= rows[id].started)
  }

  lemma PickOne(rows: Rows, r: seq<(RunId, RunStatus)>, todo: set<RunId>, id: RunId)
    requires Picked(rows, r, todo) && id in todo && id in rows
    ensures Picked(rows, r + [(id, rows[id].status)], todo - {id})
  {
    var r', todo' := r + [(id, rows[id].status)], todo - {id};
    assert r'[|r|].0 == id;
    forall other | other in rows && other !in todo' ensures exists i | 0 <= i < |r'| :: r'[i].0 == other {
      if other != id {
        var i :| 0 <= i < |r| && r[i].0 == other;
        assert r'[i].0 == other;
      }
    }
  }

  lemma NewestNext(rows: Rows, r: seq<(RunId, RunStatus)>, todo: set<RunId>, id: RunId)
    requires Picked(rows, r, todo) && id in todo && id in rows && NewestFirst(rows, r, todo)
    requires Picked(rows, r + [(id, rows[id].status)], todo - {id})
    requires forall other | other in todo :: rows[other].started <= rows[id].started
    ensures NewestFirst(rows, r + [(id, rows[id].status)], todo - {id})
  {
  }

  /** The order in which a status may change: queued, running, a result, canceled. */
  function Rank(s: RunStatus): nat {
    match s
    case Queued => 0
    case Running => 1
    case Canceled => 3
    case _ => 2
  }

  predicate StatusLe(a: RunStatus, b: RunStatus) {
    a == b || Rank(a) < Rank(b)
  }

  /** Rows are never deleted and no row's status goes down or sideways. */
  ghost predicate RowsLe(a: Rows, b: Rows) {
    forall id | id in a :: id in b && StatusLe(a[id].status, b[id].status)
  }
}
