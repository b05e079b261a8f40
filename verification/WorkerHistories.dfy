/**
 Any number of delivery workers at once: claims and reports interleave with each
 other and with everything else that happens to the outbox, and a worker reports
 on a claim what the receiver's answer to it means.
 */
module WorkerHistories {
  import opened Wrappers
  import opened Terminals
  import opened Messages
  import opened OutboxModel
  import opened OutboxInvariant
  import opened OutboxTheorems
  import opened OutboxHistory
  import opened OutboxRoutes
  import opened DeliveryWorker
  import Backfill

  // ----- New items are pending -----------------------------------------------

  ghost predicate NewPending(db: Db, db': Db) {
    forall item {:trigger Exists(db', item)} ::
      Exists(db', item) && !Exists(db, item) ==> WorkOf(db', item).status.Pending?
  }

  lemma NewPendingTransitive(a: Db, b: Db, c: Db)
    requires NewPending(a, b) && NewPending(b, c) && QueuesGrow(b, c)
    ensures NewPending(a, c)
  {
    forall item | Exists(c, item) && !Exists(a, item) ensures WorkOf(c, item).status.Pending? {
      if Exists(b, item) {
        assert WorkOf(c, item) == WorkOf(b, item);
      }
    }
  }

  lemma AddDeliveryPending(db: Db, origin: Origin, batch: Option<nat>, terminal: Serial, route: Route, body: Message,
                           now: int)
    ensures NewPending(db, AddDelivery(db, origin, batch, terminal, route, body, now))
  {
  }

  lemma {:induction false} IngestPending(db: Db, batch: seq<DeviceEvent>, now: int)
    requires FreshIds(db) && Ingest(db, batch, now).Ok?
    ensures NewPending(db, Ingest(db, batch, now).value)
    decreases |batch|
  {
    hide Archived, FreshIds, ArchiveStays, QueuesGrow, NewPending;
    if batch == [] {
      SamePending(db, db);
    } else {
      var e, next := batch[0], InsertEvent(db, batch[0], now).value;
      var added := db.(events := db.events[db.nextId := e], nextId := db.nextId + 1);
      SamePending(db, next);
      if Qualifies(e) && RouteEnabled(db, e.terminal) {
        AddDeliveryPending(added, Live(db.nextId), None, e.terminal, db.routes[e.terminal], LiveMessage(e), now);
        SameQueues(db, added,
                   AddDelivery(added, Live(db.nextId), None, e.terminal, db.routes[e.terminal], LiveMessage(e), now));
      }
      InsertEventAdds(db, e, now);
      IngestAdds(next, batch[1..], now);
      IngestPending(next, batch[1..], now);
      NewPendingTransitive(db, next, Ingest(db, batch, now).value);
    }
  }

  lemma SamePending(db: Db, db': Db)
    ensures db'.deliveries == db.deliveries && db'.attachments == db.attachments ==> NewPending(db, db')
  {
  }

  lemma SameQueues(db: Db, same: Db, db': Db)
    requires same.deliveries == db.deliveries && same.attachments == db.attachments && NewPending(same, db')
    ensures NewPending(db, db')
  {
    forall item | Exists(db', item) && !Exists(db, item) ensures WorkOf(db', item).status.Pending? {
      assert !Exists(same, item);
    }
  }

  lemma {:induction false} AddAllPending(db: Db, batch: nat, terminal: Serial, route: Route,
                                         candidates: seq<Backfill.Candidate>, now: int)
    requires FreshIds(db)
    ensures NewPending(db, AddAll(db, batch, terminal, route, candidates, now))
    decreases |candidates|
  {
    hide FreshIds, ArchiveStays, QueuesGrow, NewPending;
    if candidates == [] {
      SamePending(db, db);
    } else {
      var c := candidates[0];
      var next := AddDelivery(db, OriginOf(c), Some(batch), terminal, route, c.body, now);
      AddDeliveryPending(db, OriginOf(c), Some(batch), terminal, route, c.body, now);
      AddDeliveryAdds(db, OriginOf(c), Some(batch), terminal, route, c.body, now);
      AddAllAdds(next, batch, terminal, route, candidates[1..], now);
      AddAllPending(next, batch, terminal, route, candidates[1..], now);
      NewPendingTransitive(db, next, AddAll(db, batch, terminal, route, candidates, now));
    }
  }

  lemma PicturesPending(db: Db, step: Step)
    requires Inv(db) && AcceptsPictures(db, step)
    ensures NewPending(db, Apply(db, step))
  {
    hide Inv, AddPictures, IsPicturePreview, Through, FreshIds;
    InvFresh(db);
    PicturesTables(db, step);
    AddPicturesAreFresh(db, step.pictures.entries, step.now);
    var db' := Apply(db, step);
    assert db' == AddPictures(db, step.pictures.entries, step.now);
    forall item | Exists(db', item) && !Exists(db, item) ensures WorkOf(db', item).status.Pending? {
      assert item.PictureItem?;
    }
  }

  /** Whatever is queued waits to be claimed. */
  lemma StepPending(db: Db, step: Step)
    requires Inv(db)
    ensures NewPending(db, Apply(db, step))
  {
    hide Inv, Ingest, QueueBackfill, QueuePictures, FreshIds, NewPending;
    InvFresh(db);
    SamePending(db, Apply(db, step));
    if OnQueues(step) {
      hide Apply;
      QueueStepsKeepRows(db, step);
      NoNewRows(db, Apply(db, step));
    } else if AcceptsPictures(db, step) {
      PicturesPending(db, step);
    } else if step.StepIngest? && Ingest(db, step.events, step.now).Ok? {
      IngestPending(db, step.events, step.now);
    } else if step.StepBackfill? && QueueBackfill(db, step.terminal, step.from, step.until, step.token, step.now).Ok? {
      AcceptedPreview(db, step.terminal, step.from, step.until, step.token, step.now);
      BeginIsFresh(db, Batch(step.terminal, step.token));
      var begun := db.(batches := db.batches[db.nextId := Batch(step.terminal, step.token)], nextId := db.nextId + 1);
      AddAllPending(begun, db.nextId, step.terminal, step.token.route, step.token.candidates, step.now);
      SameQueues(db, begun, Apply(db, step));
    } else {
      RestKeepsQueues(db, step);
    }
  }

  lemma RestKeepsQueues(db: Db, step: Step)
    requires !OnQueues(step) && !AcceptsPictures(db, step)
    requires step.StepIngest? ==> Ingest(db, step.events, step.now).Err?
    requires step.StepBackfill? ==> QueueBackfill(db, step.terminal, step.from, step.until, step.token, step.now).Err?
    ensures Apply(db, step).deliveries == db.deliveries && Apply(db, step).attachments == db.attachments
  {
    hide Ingest, QueueBackfill, QueuePictures, Busy;
  }

  lemma NoNewRows(db: Db, db': Db)
    requires db'.deliveries.Keys == db.deliveries.Keys && db'.attachments.Keys == db.attachments.Keys
    ensures NewPending(db, db')
  {
  }

  // ----- Delivered comes of an accepting report ------------------------------

  predicate Undelivered(db: Db, item: Item) { Exists(db, item) ==> !WorkOf(db, item).status.Delivered? }

  ghost predicate AcceptedBy(db: Db, step: Step, item: Item) {
    Reports(db, step, item) && step.verdict.Accept?
  }

  lemma OneStepDelivers(db: Db, step: Step, item: Item)
    requires Inv(db) && Undelivered(db, item) && !Undelivered(Apply(db, step), item)
    ensures AcceptedBy(db, step, item)
  {
    hide Inv, Apply, Claims, SameContent, ArchiveStays;
    if Exists(db, item) {
      StepItem(db, step, item);
    } else {
      StepPending(db, step);
    }
  }

  lemma {:induction false} DeliveredByReport(db: Db, steps: seq<Step>, item: Item)
    requires Inv(db) && Undelivered(db, item) && !Undelivered(Exec(db, steps), item)
    ensures exists j :: 0 <= j < |steps| && AcceptedBy(Exec(db, steps[..j]), steps[j], item)
    decreases |steps|
  {
    hide Inv, Apply, AcceptedBy, Undelivered;
    if steps != [] {
      var next, rest := Apply(db, steps[0]), steps[1..];
      assert steps[..0] == [] && Exec(db, steps[..0]) == db;
      if !Undelivered(next, item) {
        OneStepDelivers(db, steps[0], item);
      } else {
        ApplyKeepsInv(db, steps[0]);
        DeliveredByReport(next, rest, item);
        var j :| 0 <= j < |rest| && AcceptedBy(Exec(next, rest[..j]), rest[j], item);
        assert steps[..j + 1][0] == steps[0] && steps[..j + 1][1..] == rest[..j];
        assert AcceptedBy(Exec(db, steps[..j + 1]), steps[j + 1], item);
      }
    }
  }

  // ----- Reports that are judged answers -------------------------------------

  /** Where a report comes from: the step that claimed, and what the worker knew and the receiver answered. */
  datatype Source = Source(claim: nat, keys: set<string>, destinationOk: bool, answer: Answer)

  /** The report at `j` is the judgement of an answer to what an earlier claim handed out. */
  ghost predicate JudgedAt(db: Db, steps: seq<Step>, j: nat, source: Source)
    requires j < |steps| && steps[j].StepFinish?
  {
    && source.claim < j
    && var before := Exec(db, steps[..source.claim]);
       && Claims(before, steps[source.claim], steps[j].item)
       && var ticket := TicketOf(before, steps[source.claim], steps[j].item);
          && ticket.attempts == steps[j].attempts
          && steps[j].verdict == Judge(ticket, source.keys, source.destinationOk, source.answer)
  }

  ghost predicate AllJudged(db: Db, steps: seq<Step>, sources: seq<Source>)
    requires |sources| == |steps|
  {
    forall j :: 0 <= j < |steps| && steps[j].StepFinish? ==> JudgedAt(db, steps, j, sources[j])
  }

  /** The body that the item carries. */
  function BodyOf(db: Db, item: Item): Option<Body>
    requires Exists(db, item)
  {
    match item
    case EventItem(d) => Some(EventBody(db.deliveries[d].body))
    case PictureItem(a) =>
      match db.attachments[a].body case None => None case Some(picture) => Some(PictureBody(picture))
  }

  /** A claim hands out the body that the item has then and ever after. */
  lemma TicketHasBody(db: Db, steps: seq<Step>, i: nat, item: Item)
    requires Inv(db) && i < |steps| && Claims(Exec(db, steps[..i]), steps[i], item)
    ensures Exists(Exec(db, steps), item)
    ensures BodyOf(Exec(db, steps), item) == Some(TicketOf(Exec(db, steps[..i]), steps[i], item).body)
  {
    hide Inv, Apply, Claims, TicketOf, Exec, Over;
    ExecKeepsInv(db, steps[..i]);
    TicketContent(Exec(db, steps[..i]), steps[i], item);
    Later(db, steps, i, |steps|, item);
    assert steps[..|steps|] == steps;
  }

  /** At `j` the item's body was acknowledged: status 200 and a receipt for it answered an earlier claim. */
  ghost predicate AcknowledgedAt(sources: seq<Source>, j: nat, ticket: Ticket)
    requires j < |sources|
  {
    Acknowledged(ticket, sources[j].keys, sources[j].destinationOk, sources[j].answer)
  }

  /**
   However workers interleave: what becomes delivered was acknowledged, with status 200 and a receipt for the very body
   that the item carries, in answer to an earlier claim of the generation that reported it.
   */
  lemma DeliveredWasAcknowledged(db: Db, steps: seq<Step>, sources: seq<Source>, item: Item)
    requires Inv(db) && |sources| == |steps| && AllJudged(db, steps, sources)
    requires Undelivered(db, item) && !Undelivered(Exec(db, steps), item)
    ensures exists i, j :: 0 <= i < j < |steps| && Claims(Exec(db, steps[..i]), steps[i], item)
                           && var ticket := TicketOf(Exec(db, steps[..i]), steps[i], item);
                              && BodyOf(Exec(db, steps), item) == Some(ticket.body)
                              && steps[j].StepFinish? && steps[j].item == item && steps[j].attempts == ticket.attempts
                              && AcknowledgedAt(sources, j, ticket)
  {
    hide Inv, Apply, Exec, Claims, TicketOf, Undelivered, BodyOf, Finish;
    DeliveredByReport(db, steps, item);
    var j :| 0 <= j < |steps| && AcceptedBy(Exec(db, steps[..j]), steps[j], item);
    assert JudgedAt(db, steps, j, sources[j]);
    var i := sources[j].claim;
    TicketHasBody(db, steps, i, item);
    assert AcknowledgedAt(sources, j, TicketOf(Exec(db, steps[..i]), steps[i], item));
  }
}
