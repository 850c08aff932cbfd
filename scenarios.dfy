/** Request sequences against a fresh service, with what the handlers'
    contracts guarantee about their answers. */
module Scenarios {
  import opened Models
  import opened Webhooks

  /** Register, set a target, receive one hook: the log has that payload
      under id 1, and exactly one delivery went to the target. */
  method ReceiveThenList() returns (rows: seq<LogRow>, sent: seq<Delivery>)
    ensures rows == [LogRow(1, "hello")]
    ensures sent == [Delivery("http://example/x", "hello")]
  {
    var s := new WebhookService();
    var r1 := s.Register("p1");
    var r2 := s.SetTarget("p1", "http://example/x");
    var r3 := s.Receive("p1", "hello");
    assert r3 == Received;
    assert s.log == [WebhookLog(Some(1), "p1", "hello")];
    assert Select(s.log, "p1") == s.log by { assert s.log[1..] == []; }
    rows := s.GetLogs("p1");
    sent := s.outbox;
  }

  /** A hook for an unknown project is refused and leaves nothing behind. */
  method ReceiveUnknown() returns (r: Response, rows: seq<LogRow>)
    ensures r == ProjectNotFound && rows == []
  {
    var s := new WebhookService();
    r := s.Receive("ghost", "x");
    rows := s.GetLogs("ghost");
  }

  /** Registering the same id twice: the first succeeds, the second is refused. */
  method RegisterTwice() returns (first: Response, second: Response)
    ensures first == Registered("p") && second == AlreadyExists
  {
    var s := new WebhookService();
    first := s.Register("p");
    second := s.Register("p");
  }

  /** Replay without a target is refused even when hooks were logged. */
  method ReplayWithoutTarget() returns (r: Response, rows: seq<LogRow>, sent: seq<Delivery>)
    ensures r == ProjectOrTargetNotFound
    ensures rows == [LogRow(1, "a"), LogRow(2, "b")]
    ensures sent == []
  {
    var s := new WebhookService();
    var r1 := s.Register("p2");
    var r2 := s.Receive("p2", "a");
    var r3 := s.Receive("p2", "b");
    ghost var done := [WebhookLog(Some(1), "p2", "a"), WebhookLog(Some(2), "p2", "b")];
    assert s.log == done;
    assert Select(done, "p2") == done by { assert done[1..][1..] == []; }
    r := s.Replay("p2");
    rows := s.GetLogs("p2");
    sent := s.outbox;
  }

  /** An empty-string target is stored, but counts as no target: nothing is
      forwarded and replay is refused. */
  method EmptyTarget() returns (updated: Response, replay: Response, sent: seq<Delivery>)
    ensures updated == TargetUpdated && replay == ProjectOrTargetNotFound && sent == []
  {
    var s := new WebhookService();
    var r1 := s.Register("p");
    updated := s.SetTarget("p", "");
    var r2 := s.Receive("p", "a");
    replay := s.Replay("p");
    sent := s.outbox;
  }

  /** One project whose target is set only between its two hooks: the first
      hook is logged and not forwarded, the second is forwarded. */
  method TargetSetBetweenHooks() returns (s: WebhookService)
    ensures fresh(s) && s.Valid()
    ensures "p" in s.projects && s.projects["p"] == Project("p", Some("u"))
    ensures s.log == [WebhookLog(Some(1), "p", "a"), WebhookLog(Some(2), "p", "c")]
    ensures s.outbox == [Delivery("u", "c")]
  {
    s := new WebhookService();
    var r1 := s.Register("p");
    var r2 := s.Receive("p", "a");
    assert s.outbox == [];
    var r3 := s.SetTarget("p", "u");
    var r4 := s.Receive("p", "c");
  }

  /** Replay sends every row of the project, in order, to its target as it
      is now, also the row logged before any target was set, and counts the
      rows. */
  method ReplayCurrentTarget() returns (r: Response, rows: seq<LogRow>, sent: seq<Delivery>)
    ensures r == Replayed(2)
    ensures rows == [LogRow(1, "a"), LogRow(2, "c")]
    ensures sent == [Delivery("u", "c"), Delivery("u", "a"), Delivery("u", "c")]
  {
    var s := TargetSetBetweenHooks();
    ghost var done := [WebhookLog(Some(1), "p", "a"), WebhookLog(Some(2), "p", "c")];
    assert s.log == done;
    assert Select(done, "p") == done by { assert done[1..][1..] == []; }
    assert Attempts("u", done) == [Delivery("u", "a"), Delivery("u", "c")];
    assert Rows(done) == [LogRow(1, "a"), LogRow(2, "c")];
    r := s.Replay("p");
    rows := s.GetLogs("p");
    sent := s.outbox;
  }
}
