/** The webhook service: a project directory, an append-only webhook table,
    and an outbox recording every outbound POST attempt. */
module Webhooks {
  import opened Models

  /** What a handler answers. The two 404 replies carry different messages
      in the service, so they are kept apart here. */
  datatype Response =
    | Registered(projectId: string)
    | TargetUpdated
    | Received
    | Replayed(count: nat)
    | AlreadyExists
    | ProjectNotFound
    | ProjectOrTargetNotFound

  /** One outbound POST: where it went and the body it carried. */
  datatype Delivery = Delivery(url: string, payload: string)

  /** One element of the list that the logs endpoint returns. */
  datatype LogRow = LogRow(id: int, payload: string)

  /** The rows of `log` whose project is `projectId`, in table order
      (the `where` query of the service). */
  function Select(log: seq<WebhookLog>, projectId: string): seq<WebhookLog>
  {
    if log == [] then []
    else (if log[0].projectId == projectId then [log[0]] else []) + Select(log[1..], projectId)
  }

  /** The projection of stored rows to what the logs endpoint returns. */
  function Rows(log: seq<WebhookLog>): (rows: seq<LogRow>)
    requires Stored(log)
    ensures |rows| == |log|
    ensures forall i :: 0 <= i < |log| ==> rows[i] == LogRow(log[i].id.value, log[i].payload)
  {
    if log == [] then [] else [LogRow(log[0].id.value, log[0].payload)] + Rows(log[1..])
  }

  /** One POST to `url` per row of `log`, in order, carrying that row's payload. */
  function Attempts(url: string, log: seq<WebhookLog>): (out: seq<Delivery>)
    ensures |out| == |log|
    ensures forall i :: 0 <= i < |log| ==> out[i] == Delivery(url, log[i].payload)
  {
    if log == [] then [] else [Delivery(url, log[0].payload)] + Attempts(url, log[1..])
  }

  /** Selecting from a table with one more row selects that row exactly
      when it belongs to the project. */
  lemma {:induction false} SelectAppend(log: seq<WebhookLog>, w: WebhookLog, projectId: string)
    ensures Select(log + [w], projectId)
            == Select(log, projectId) + (if w.projectId == projectId then [w] else [])
  {
    if log == [] {
      assert [w][1..] == [];
    } else {
      assert (log + [w])[1..] == log[1..] + [w];
      SelectAppend(log[1..], w, projectId);
    }
  }

  /** A row is selected exactly when it is in the table and belongs to the project. */
  lemma {:induction false} SelectMembers(log: seq<WebhookLog>, projectId: string, w: WebhookLog)
    ensures w in Select(log, projectId) <==> w in log && w.projectId == projectId
  {
    if log != [] {
      SelectMembers(log[1..], projectId, w);
      assert log == [log[0]] + log[1..];
    }
  }

  /** The selection keeps the table's order: it is the table with some rows
      dropped, so rows that were stored keep their ids and stay increasing. */
  lemma {:induction false} SelectKeepsIncreasing(log: seq<WebhookLog>, projectId: string)
    requires Stored(log) && Increasing(log)
    ensures Stored(Select(log, projectId)) && Increasing(Select(log, projectId))
  {
    if log != [] {
      var tail := log[1..];
      assert Stored(tail) && Increasing(tail) by {
        forall i, j | 0 <= i < j < |tail| ensures tail[i].id.value < tail[j].id.value {
          assert tail[i] == log[i + 1] && tail[j] == log[j + 1];
        }
      }
      SelectKeepsIncreasing(tail, projectId);
      var rest := Select(tail, projectId);
      if log[0].projectId == projectId {
        var s := [log[0]] + rest;
        forall k | 0 <= k < |rest| ensures log[0].id.value < rest[k].id.value {
          SelectMembers(tail, projectId, rest[k]);
          var m :| 0 <= m < |tail| && tail[m] == rest[k];
          assert tail[m] == log[m + 1];
        }
        forall i, j | 0 <= i < j < |s| ensures s[i].id.value < s[j].id.value {
          if i == 0 {
            assert s[j] == rest[j - 1];
          } else {
            assert s[i] == rest[i - 1] && s[j] == rest[j - 1];
          }
        }
      }
    }
  }

  /** A project with no rows in the table selects nothing. */
  lemma {:induction false} SelectAbsent(log: seq<WebhookLog>, projectId: string)
    requires forall i :: 0 <= i < |log| ==> log[i].projectId != projectId
    ensures Select(log, projectId) == []
  {
    if log != [] {
      assert forall i :: 0 <= i < |log[1..]| ==> log[1..][i] == log[i + 1];
      SelectAbsent(log[1..], projectId);
    }
  }

  /** Adding deliveries for one more row adds exactly one delivery at the end. */
  lemma AttemptsAppend(url: string, log: seq<WebhookLog>, w: WebhookLog)
    ensures Attempts(url, log + [w]) == Attempts(url, log) + [Delivery(url, w.payload)]
  {
  }

  /** What the logs endpoint answers after a hook for `projectId` is logged:
      that project's listing gains the new row at its end, with the id the
      store assigned and the payload received; every other listing is as
      before. Repeated hooks thus list in the order they were received. */
  lemma LogsAfterInsert(log: seq<WebhookLog>, projectId: string, payload: string, other: string)
    requires Stored(log) && Increasing(log)
    ensures Stored(Select(log, other))
    ensures var entry := Assign(NewLog(projectId, payload), NextRowId(log));
            && Stored(Select(log + [entry], other))
            && Rows(Select(log + [entry], other))
               == Rows(Select(log, other)) + (if other == projectId then [LogRow(NextRowId(log), payload)] else [])
  {
    var entry := Assign(NewLog(projectId, payload), NextRowId(log));
    InsertKeepsIncreasing(log, NewLog(projectId, payload));
    SelectKeepsIncreasing(log, other);
    SelectKeepsIncreasing(log + [entry], other);
    SelectAppend(log, entry, other);
    var before := Select(log, other);
    var after := Select(log + [entry], other);
    if other == projectId {
      assert after == before + [entry];
      var a := Rows(after);
      var b := Rows(before) + [LogRow(NextRowId(log), payload)];
      assert |a| == |b|;
      forall i | 0 <= i < |a| ensures a[i] == b[i] {
        if i < |before| {
          assert after[i] == before[i];
        }
      }
    }
  }

  class WebhookService {
    /** The projects table, keyed by project id. */
    var projects: map<string, Project>
    /** The webhook table in insertion (rowid) order. */
    var log: seq<WebhookLog>
    /** Every outbound POST the service has attempted, in order; outcomes are not kept. */
    var outbox: seq<Delivery>

    /** The store's invariant: each project is filed under its own id, every
        row has an id, ids strictly increase, and every row names a project
        that exists (the table has no foreign key; the handlers keep this). */
    ghost predicate Valid()
      reads this
    {
      && (forall id :: id in projects ==> projects[id].id == id)
      && Stored(log)
      && Increasing(log)
      && (forall i :: 0 <= i < |log| ==> log[i].projectId in projects)
    }

    /** The logs endpoint's answer for `projectId`, as a function of the table. */
    ghost function LogsFor(projectId: string): seq<LogRow>
      reads this
      requires Valid()
    {
      SelectKeepsIncreasing(log, projectId);
      Rows(Select(log, projectId))
    }

    constructor ()
      ensures Valid()
      ensures projects == map[] && log == [] && outbox == []
    {
      projects := map[];
      log := [];
      outbox := [];
    }

    /** An outbound POST. Its outcome (a response or an exception) is
        arbitrary: the handlers discard it. */
    method Post(url: string, payload: string) returns (delivered: bool)
      modifies this`outbox
      ensures outbox == old(outbox) + [Delivery(url, payload)]
    {
      outbox := outbox + [Delivery(url, payload)];
      delivered :| true;
    }

    /** `POST /register`: fails if the id is taken; otherwise adds the project
        with no target. */
    method Register(projectId: string) returns (r: Response)
      requires Valid()
      modifies this
      ensures Valid()
      ensures old(projectId in projects) ==> r == AlreadyExists && projects == old(projects)
      ensures old(projectId !in projects) ==>
                r == Registered(projectId) && projects == old(projects)[projectId := NewProject(projectId)]
      ensures log == old(log) && outbox == old(outbox)
    {
      if projectId in projects {
        return AlreadyExists;
      }
      projects := projects[projectId := NewProject(projectId)];
      r := Registered(projectId);
    }

    /** `POST /set-target/{id}`: fails on an unknown project; otherwise
        overwrites its target with the given string, even an empty one. */
    method SetTarget(projectId: string, targetUrl: string) returns (r: Response)
      requires Valid()
      modifies this
      ensures Valid()
      ensures old(projectId !in projects) ==> r == ProjectNotFound && projects == old(projects)
      ensures old(projectId in projects) ==>
                r == TargetUpdated && projects == old(projects)[projectId := Project(projectId, Some(targetUrl))]
      ensures log == old(log) && outbox == old(outbox)
    {
      if projectId !in projects {
        return ProjectNotFound;
      }
      var project := projects[projectId];
      projects := projects[projectId := project.(targetUrl := Some(targetUrl))];
      r := TargetUpdated;
    }

    /** `POST /hook/{id}`: fails on an unknown project without logging;
        otherwise logs the payload under a fresh id, then makes one delivery
        attempt when the project has a (non-empty) target, and answers
        `Received` whatever that attempt does. */
    method Receive(projectId: string, payload: string) returns (r: Response)
      requires Valid()
      modifies this
      ensures Valid()
      ensures projects == old(projects)
      ensures old(projectId !in projects) ==>
                r == ProjectNotFound && log == old(log) && outbox == old(outbox)
      ensures old(projectId in projects) ==>
                && r == Received
                && log == old(log) + [WebhookLog(Some(NextRowId(old(log))), projectId, payload)]
                && outbox == old(outbox) +
                     (if HasTarget(projects[projectId])
                      then [Delivery(projects[projectId].targetUrl.value, payload)] else [])
    {
      if projectId !in projects {
        return ProjectNotFound;
      }
      var project := projects[projectId];
      var entry := Assign(NewLog(projectId, payload), NextRowId(log));
      InsertKeepsIncreasing(log, NewLog(projectId, payload));
      log := log + [entry];
      if HasTarget(project) {
        var _ := Post(project.targetUrl.value, payload);
      }
      r := Received;
    }

    /** `GET /logs/{id}`: the rows of that project, in table order, as
        (id, payload) pairs. An unknown project gives the empty list. */
    method GetLogs(projectId: string) returns (rows: seq<LogRow>)
      requires Valid()
      ensures rows == LogsFor(projectId)
      ensures projectId !in projects ==> rows == []
      ensures forall i :: 0 <= i < |log| && log[i].projectId == projectId ==>
                LogRow(log[i].id.value, log[i].payload) in rows
    {
      rows := [];
      var i := 0;
      while i < |log|
        invariant 0 <= i <= |log|
        invariant Stored(Select(log[..i], projectId))
        invariant rows == Rows(Select(log[..i], projectId))
      {
        var entry := log[i];
        assert log[..i + 1] == log[..i] + [entry];
        SelectAppend(log[..i], entry, projectId);
        if entry.projectId == projectId {
          rows := rows + [LogRow(entry.id.value, entry.payload)];
          assert Rows(Select(log[..i + 1], projectId)) == Rows(Select(log[..i], projectId)) + [LogRow(entry.id.value, entry.payload)];
        }
        i := i + 1;
      }
      assert log[..i] == log;
      if projectId !in projects {
        SelectAbsent(log, projectId);
      }
      forall k | 0 <= k < |log| && log[k].projectId == projectId
        ensures LogRow(log[k].id.value, log[k].payload) in rows
      {
        SelectMembers(log, projectId, log[k]);
        var sel := Select(log, projectId);
        var m :| 0 <= m < |sel| && sel[m] == log[k];
        assert rows[m] == LogRow(log[k].id.value, log[k].payload);
      }
    }

    /** `POST /replay/{id}`: fails, attempting nothing, on an unknown
        project or one without a (non-empty) target; otherwise POSTs every
        row of the project, in table order, to its current target, and
        answers with the number of rows, whatever the POSTs did. */
    method Replay(projectId: string) returns (r: Response)
      requires Valid()
      modifies this
      ensures Valid()
      ensures projects == old(projects) && log == old(log)
      ensures old(projectId !in projects || !HasTarget(projects[projectId])) ==>
                r == ProjectOrTargetNotFound && outbox == old(outbox)
      ensures old(projectId in projects && HasTarget(projects[projectId])) ==>
                && r == Replayed(|Select(log, projectId)|)
                && outbox == old(outbox) + Attempts(projects[projectId].targetUrl.value, Select(log, projectId))
    {
      if projectId !in projects || !HasTarget(projects[projectId]) {
        return ProjectOrTargetNotFound;
      }
      var target := projects[projectId].targetUrl.value;
      var logs := Select(log, projectId);
      for i := 0 to |logs|
        invariant projects == old(projects) && log == old(log)
        invariant outbox == old(outbox) + Attempts(target, logs[..i])
      {
        var _ := Post(target, logs[i].payload);
        assert logs[..i + 1] == logs[..i] + [logs[i]];
        AttemptsAppend(target, logs[..i], logs[i]);
      }
      assert logs[..|logs|] == logs;
      r := Replayed(|logs|);
    }
  }
}
