/** Record shapes of the two tables: a project and a logged webhook. */
module Models {

  datatype Option<+T> = None | Some(value: T)

  /** A row of the projects table. `id` is the primary key; `targetUrl` is
      nullable, and `None` means "log only, do not forward". */
  datatype Project = Project(id: string, targetUrl: Option<string>)

  /** A row of the webhook table. `id` is unset (`None`) until the store
      assigns one on insert; `projectId` is a plain string with no foreign
      key; the payload is stored as decoded text. */
  datatype WebhookLog = WebhookLog(id: Option<int>, projectId: string, payload: string)

  /** A project as created by registration: the given key, no target. */
  function NewProject(id: string): (p: Project)
    ensures p.id == id
    ensures p.targetUrl.None? && !HasTarget(p)
  {
    Project(id, None)
  }

  /** A webhook record before insertion: its id is not yet assigned. */
  function NewLog(projectId: string, payload: string): WebhookLog
  {
    WebhookLog(None, projectId, payload)
  }

  /** Python truthiness of the target: `None` and the empty string are both
      "no target". */
  predicate HasTarget(p: Project) {
    p.targetUrl.Some? && p.targetUrl.value != ""
  }

  /** Every record of a stored table has an id. */
  predicate Stored(log: seq<WebhookLog>) {
    forall i :: 0 <= i < |log| ==> log[i].id.Some?
  }

  /** Ids strictly increase along the table (insertion order is id order),
      so in particular no id occurs twice. */
  predicate Increasing(log: seq<WebhookLog>)
    requires Stored(log)
  {
    forall i, j :: 0 <= i < j < |log| ==> log[i].id.value < log[j].id.value
  }

  /** Strictly increasing ids are pairwise distinct: the id is a key of the table. */
  lemma IncreasingIdsUnique(log: seq<WebhookLog>, i: int, j: int)
    requires Stored(log) && Increasing(log)
    requires 0 <= i < |log| && 0 <= j < |log| && i != j
    ensures log[i].id != log[j].id
  {
  }

  /** The id the store gives the next insert: one more than the largest id
      in the table, or 1 for an empty table (SQLite's rowid rule for a
      table that never loses rows, while the largest id is below 2^63-1;
      ids here are unbounded). */
  function NextRowId(log: seq<WebhookLog>): (r: int)
    requires Stored(log) && Increasing(log)
    ensures forall i :: 0 <= i < |log| ==> log[i].id.value < r
    ensures log == [] ==> r == 1
  {
    if log == [] then 1 else log[|log| - 1].id.value + 1
  }

  /** Insertion assigns the id, once, and keeps the rest of the record. */
  function Assign(w: WebhookLog, id: int): WebhookLog
    requires w.id.None?
  {
    w.(id := Some(id))
  }

  /** Appending a record under `NextRowId` keeps every row's id set and the
      ids strictly increasing, so the new id is fresh. */
  lemma InsertKeepsIncreasing(log: seq<WebhookLog>, w: WebhookLog)
    requires Stored(log) && Increasing(log) && w.id.None?
    ensures Stored(log + [Assign(w, NextRowId(log))])
    ensures Increasing(log + [Assign(w, NextRowId(log))])
  {
  }
}
