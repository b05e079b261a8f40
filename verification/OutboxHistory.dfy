/**
 Ingestion and backfills over whole runs: every acknowledged event is archived and
 queued once, a token is good for one backfill, and deliveries go where the route
 pointed when they were queued.
 */
module OutboxHistory {
  import opened Wrappers
  import opened Ordering
  import opened Terminals
  import opened Messages
  import opened OutboxModel
  import opened OutboxInvariant
  import opened OutboxTheorems
  import Backfill

  // ----- What no step takes away ---------------------------------------------

  lemma StepArchive(db: Db, step: Step)
    requires Inv(db)
    ensures ArchiveStays(db, Apply(db, step))
  {
    hide Inv, Apply, ArchiveStays;
    match step
    case StepClaim(queue, locked, now) => ClaimArchive(db, step);
    case StepFinish(_, _, _, _) => QueueArchive(db, step);
    case StepRetry(_, _) => QueueArchive(db, step);
    case _ => OthersAdd(db, step);
  }

  lemma ClaimArchive(db: Db, step: Step)
    requires step.StepClaim?
    ensures ArchiveStays(db, Apply(db, step))
  {
    hide ClaimNext, Claimable, MakePicture;
    var claim := ClaimNext(db, step.queue, step.locked, step.now);
    if claim.Ok? && claim.value.Some? {
      ClaimedItem(db, step, claim.value.value.ticket.item);
    }
  }

  lemma QueueArchive(db: Db, step: Step)
    requires step.StepFinish? || step.StepRetry?
    ensures ArchiveStays(db, Apply(db, step))
  {
    hide SetWork, ArchiveStays;
    if Exists(db, step.item) {
      SameAsBefore(db, step.item);
      if step.StepFinish? {
        SetWorkItem(db, step.item, Settle(WorkOf(db, step.item), step.verdict, step.next), step.item);
      } else {
        SetWorkItem(db, step.item, Revive(WorkOf(db, step.item), step.now), step.item);
      }
    } else {
      ArchiveStaysSame(db);
    }
  }

  lemma ArchiveStaysSame(db: Db)
    ensures ArchiveStays(db, db)
  {
  }

  lemma {:induction false} RunArchive(db: Db, steps: seq<Step>)
    requires Inv(db)
    ensures ArchiveStays(db, Exec(db, steps))
    decreases |steps|
  {
    hide Inv, Apply;
    if steps != [] {
      StepArchive(db, steps[0]);
      ApplyKeepsInv(db, steps[0]);
      RunArchive(Apply(db, steps[0]), steps[1..]);
    }
  }

  /** What a delivery carries, it carries for ever; what has a picture delivery keeps it. */
  lemma RunQueued(db: Db, steps: seq<Step>)
    requires Inv(db)
    ensures forall origin :: Queued(db, origin) ==> Queued(Exec(db, steps), origin)
    ensures forall d :: HasPicture(db, d) ==> HasPicture(Exec(db, steps), d)
  {
    hide Inv, Exec;
    var db' := Exec(db, steps);
    forall origin | Queued(db, origin) ensures Queued(db', origin) {
      var d :| d in db.deliveries && Carries(db, d, origin);
      RunItem(db, steps, EventItem(d));
      assert Carries(db', d, origin);
    }
    forall d | HasPicture(db, d) ensures HasPicture(db', d) {
      var a :| a in db.attachments && db.attachments[a].parent == d;
      RunItem(db, steps, PictureItem(a));
      assert a in db'.attachments && db'.attachments[a].parent == d;
    }
  }

  // ----- Ingestion -----------------------------------------------------------

  predicate Storable(db: Db, e: DeviceEvent) { e.terminal in db.terminals && ValidFormat(e.payload.format) }

  lemma ArchivedStays(db: Db, db': Db, e: DeviceEvent)
    requires ArchiveStays(db, db')
    ensures Archived(db, e.terminal, e.vendorId) ==> Archived(db', e.terminal, e.vendorId)
    ensures Storable(db, e) ==> Storable(db', e)
  {
    if Archived(db, e.terminal, e.vendorId) {
      var id :| id in db.events && IsEvent(db, id, e.terminal, e.vendorId);
      assert IsEvent(db', id, e.terminal, e.vendorId);
    }
  }

  lemma InsertArchives(db: Db, e: DeviceEvent, now: int)
    requires InsertEvent(db, e, now).Ok?
    ensures Archived(InsertEvent(db, e, now).value, e.terminal, e.vendorId) && Storable(db, e)
  {
    if !Archived(db, e.terminal, e.vendorId) {
      assert IsEvent(InsertEvent(db, e, now).value, db.nextId, e.terminal, e.vendorId);
    }
  }

  /** An acknowledged batch is archived entirely. */
  lemma {:induction false} IngestArchives(db: Db, batch: seq<DeviceEvent>, now: int)
    requires FreshIds(db) && Ingest(db, batch, now).Ok?
    ensures forall i :: 0 <= i < |batch| ==>
              && Archived(Ingest(db, batch, now).value, batch[i].terminal, batch[i].vendorId)
              && Storable(Ingest(db, batch, now).value, batch[i])
    decreases |batch|
  {
    hide InsertEvent, Archived, Storable, ArchiveStays, QueuesGrow;
    if batch != [] {
      var next, last := InsertEvent(db, batch[0], now).value, Ingest(db, batch, now).value;
      InsertArchives(db, batch[0], now);
      InsertEventAdds(db, batch[0], now);
      ArchivedStays(db, next, batch[0]);
      IngestAdds(next, batch[1..], now);
      ArchivedStays(next, last, batch[0]);
      IngestArchives(next, batch[1..], now);
      forall i | 0 <= i < |batch|
        ensures Archived(last, batch[i].terminal, batch[i].vendorId) && Storable(last, batch[i])
      {
        assert i > 0 ==> batch[1..][i - 1] == batch[i];
      }
    }
  }

  lemma {:induction false} KnownBatchChangesNothing(db: Db, batch: seq<DeviceEvent>, now: int)
    requires forall i :: 0 <= i < |batch| ==>
               Storable(db, batch[i]) && Archived(db, batch[i].terminal, batch[i].vendorId)
    ensures Ingest(db, batch, now) == Ok(db)
    decreases |batch|
  {
    hide Archived;
    if batch != [] {
      assert InsertEvent(db, batch[0], now) == Ok(db);
      KnownBatchChangesNothing(db, batch[1..], now);
    }
  }

  /** A terminal may send an acknowledged batch again at any later time: it is acknowledged and nothing changes. */
  lemma ReplayChangesNothing(db: Db, batch: seq<DeviceEvent>, now: int, steps: seq<Step>, later: int)
    requires Inv(db) && Ingest(db, batch, now).Ok?
    ensures var reached := Exec(Ingest(db, batch, now).value, steps);
            Ingest(reached, batch, later) == Ok(reached)
  {
    hide Inv, Ingest, Exec, Archived, Storable, ArchiveStays;
    var stored := Ingest(db, batch, now).value;
    var reached := Exec(stored, steps);
    InvFresh(db);
    IngestArchives(db, batch, now);
    IngestKeepsInv(db, batch, now);
    RunArchive(stored, steps);
    forall i | 0 <= i < |batch|
      ensures Storable(reached, batch[i]) && Archived(reached, batch[i].terminal, batch[i].vendorId)
    {
      ArchivedStays(stored, reached, batch[i]);
    }
    KnownBatchChangesNothing(reached, batch, later);
  }

  /** The first payload sent under a vendor identity is the one that stays, whatever is sent later. */
  lemma FirstPayloadWins(db: Db, steps: seq<Step>, id: nat, later: nat)
    requires Inv(db) && id in db.events
    requires IsEvent(Exec(db, steps), later, db.events[id].terminal, db.events[id].vendorId)
    ensures later == id && Exec(db, steps).events[later].payload == db.events[id].payload
  {
    hide Exec, Spent, MakePicture, DeliveryOk, AttachmentOk;
    RunArchive(db, steps);
    ExecKeepsInv(db, steps);
  }

  /** A face recognised at an active terminal. */
  predicate IsScan(e: DeviceEvent) {
    && e.projection.Classified? && e.projection.major == 5 && e.projection.sub == 75
    && e.projection.state == Some("active")
  }

  /** The message tells what the archived event says, field by field. */
  predicate TellsEvent(m: Message, e: DeviceEvent) {
    && e.projection.Classified? && m.source == PushSDK && m.eventId == e.vendorId && m.terminal == e.terminal
    && m.state == e.projection.state && m.scan.occurredAt == e.projection.scan.occurredAt
    && m.scan.employee == e.projection.scan.employee && m.scan.name == e.projection.scan.name
    && m.scan.serial == e.projection.scan.serial
  }

  predicate Untried(w: Work, now: int) {
    w.status.Pending? && w.attempts == 0 && w.nextAttemptAt == now && w.leaseUntil.None?
  }

  predicate WaitingPicture(db: Db, a: nat, d: nat, now: int) {
    && a in db.attachments && db.attachments[a].parent == d && db.attachments[a].body.None?
    && Untried(db.attachments[a].work, now)
  }

  /** The delivery made for a live event: its message, the route of that moment, not yet tried, and a picture. */
  ghost predicate FreshDelivery(db: Db, d: nat, id: nat, route: Route, now: int) {
    && d in db.deliveries && id in db.events
    && var delivery := db.deliveries[d];
       && delivery.origin == Live(id) && delivery.batch.None? && delivery.terminal == db.events[id].terminal
       && delivery.endpoint == route.endpoint && delivery.key == route.key
       && TellsEvent(delivery.body, db.events[id]) && Untried(delivery.work, now)
       && exists a :: WaitingPicture(db, a, d, now)
  }

  /** Event `id` is queued as it should be, given the routes. */
  ghost predicate QueuedRightly(db: Db, routes: map<Serial, Route>, id: nat, now: int)
    requires id in db.events
  {
    var e := db.events[id];
    if IsScan(e) && e.terminal in routes && routes[e.terminal].enabled then
      exists d :: FreshDelivery(db, d, id, routes[e.terminal], now)
    else !Queued(db, Live(id))
  }

  /** Nothing but new live events becomes queued between the two states. */
  ghost predicate OnlyNewQueued(db: Db, db': Db) {
    forall origin :: Queued(db', origin) && !Queued(db, origin) ==>
      origin.Live? && origin.event in db'.events && origin.event !in db.events
  }

  lemma InsertQueues(db: Db, e: DeviceEvent, now: int)
    requires Inv(db) && InsertEvent(db, e, now).Ok?
    ensures var next := InsertEvent(db, e, now).value;
            && next.routes == db.routes && OnlyNewQueued(db, next)
            && (forall id :: id in db.events ==> id in next.events && next.events[id] == db.events[id])
            && (forall id :: id in next.events && id !in db.events ==>
                  id == db.nextId && next.events[id] == e && QueuedRightly(next, db.routes, id, now))
            && next.nextId >= db.nextId
  {
    hide Inv, Archived, Queued;
    var next := InsertEvent(db, e, now).value;
    if !Archived(db, e.terminal, e.vendorId) {
      var added := db.(events := db.events[db.nextId := e], nextId := db.nextId + 1);
      AddEventKeepsInv(db, e);
      InvFresh(db);
      forall origin ensures Queued(added, origin) == Queued(db, origin) {
        SameQueue(db, added, origin);
      }
      if Qualifies(e) && RouteEnabled(db, e.terminal) {
        var route := db.routes[e.terminal];
        forall origin ensures Queued(next, origin) <==> Queued(added, origin) || origin == Live(db.nextId) {
          AddDeliveryQueues(added, Live(db.nextId), None, e.terminal, route, LiveMessage(e), now, origin);
        }
        assert WaitingPicture(next, added.nextId + 1, added.nextId, now);
        assert FreshDelivery(next, added.nextId, db.nextId, route, now);
      }
    }
  }

  lemma RightlyStays(db: Db, db': Db, routes: map<Serial, Route>, id: nat, now: int)
    requires id in db.events && id in db'.events && db'.events[id] == db.events[id]
    requires QueuesGrow(db, db') && OnlyNewQueued(db, db') && QueuedRightly(db, routes, id, now)
    ensures QueuedRightly(db', routes, id, now)
  {
    hide Queued;
    var e := db.events[id];
    if IsScan(e) && e.terminal in routes && routes[e.terminal].enabled {
      var d :| FreshDelivery(db, d, id, routes[e.terminal], now);
      var a :| WaitingPicture(db, a, d, now);
      assert WaitingPicture(db', a, d, now);
      assert FreshDelivery(db', d, id, routes[e.terminal], now);
    }
  }

  /** Event `e` is in the batch, the first of its vendor identity. */
  ghost predicate NewIn(batch: seq<DeviceEvent>, e: DeviceEvent) {
    exists i :: 0 <= i < |batch| && batch[i] == e && FirstOfIdentity(batch, i)
  }

  predicate FirstOfIdentity(batch: seq<DeviceEvent>, i: int)
    requires 0 <= i < |batch|
  {
    forall j :: 0 <= j < i ==> batch[j].terminal != batch[i].terminal || batch[j].vendorId != batch[i].vendorId
  }

  lemma FirstIsNew(batch: seq<DeviceEvent>)
    requires batch != []
    ensures NewIn(batch, batch[0])
  {
    assert FirstOfIdentity(batch, 0);
  }

  /** What the rest of the batch adds differs in its identity from what is archived, the first event included. */
  lemma LaterIsNew(first: Db, batch: seq<DeviceEvent>, id: nat, now: int)
    requires Inv(first) && batch != [] && Archived(first, batch[0].terminal, batch[0].vendorId)
    requires Ingest(first, batch[1..], now).Ok?
    requires var last := Ingest(first, batch[1..], now).value;
             && id in last.events && id !in first.events && NewIn(batch[1..], last.events[id])
             && forall k :: k in first.events ==> k in last.events && last.events[k] == first.events[k]
    ensures NewIn(batch, Ingest(first, batch[1..], now).value.events[id])
  {
    hide Inv, Ingest;
    var last := Ingest(first, batch[1..], now).value;
    IngestKeepsInv(first, batch[1..], now);
    InvArchive(last);
    var known :| known in first.events && IsEvent(first, known, batch[0].terminal, batch[0].vendorId);
    var i :| 0 <= i < |batch[1..]| && batch[1..][i] == last.events[id] && FirstOfIdentity(batch[1..], i);
    assert batch[i + 1] == batch[1..][i];
    assert !IsEvent(last, known, last.events[id].terminal, last.events[id].vendorId);
    forall j | 0 <= j < i + 1
      ensures batch[j].terminal != batch[i + 1].terminal || batch[j].vendorId != batch[i + 1].vendorId
    {
      assert j > 0 ==> batch[1..][j - 1] == batch[j];
    }
    assert FirstOfIdentity(batch, i + 1);
  }

  /**
   Exactly the newly archived scans are queued, each with its own fields as the message and for the enabled route, and
   nothing else is. What is newly archived is the batch, as it was sent.
   */
  lemma {:induction false} IngestQueuesExactly(db: Db, batch: seq<DeviceEvent>, now: int)
    requires Inv(db) && Ingest(db, batch, now).Ok?
    ensures var next := Ingest(db, batch, now).value;
            && next.routes == db.routes && OnlyNewQueued(db, next)
            && (forall id :: id in db.events ==> id in next.events && next.events[id] == db.events[id])
            && (forall id :: id in next.events && id !in db.events ==>
                  NewIn(batch, next.events[id]) && QueuedRightly(next, db.routes, id, now))
    decreases |batch|
  {
    hide Inv, InsertEvent, Queued, QueuedRightly, NewIn;
    if batch != [] {
      var first, last := InsertEvent(db, batch[0], now).value, Ingest(db, batch, now).value;
      InsertQueues(db, batch[0], now);
      InsertEventKeepsInv(db, batch[0], now);
      InvFresh(first);
      IngestAdds(first, batch[1..], now);
      IngestQueuesExactly(first, batch[1..], now);
      forall id | id in last.events && id !in db.events
        ensures NewIn(batch, last.events[id]) && QueuedRightly(last, db.routes, id, now)
      {
        if id in first.events {
          RightlyStays(first, last, db.routes, id, now);
          FirstIsNew(batch);
        } else {
          InsertArchives(db, batch[0], now);
          LaterIsNew(first, batch, id, now);
        }
      }
    }
  }

  /** Over any run, an event has at most one delivery and a delivery at most one picture. */
  lemma OneDeliveryPerEvent(db: Db, steps: seq<Step>)
    requires Initial(db)
    ensures var q := Exec(db, steps).deliveries;
            forall d, e :: d in q && e in q && q[d].origin == q[e].origin ==> d == e
    ensures var q := Exec(db, steps).attachments;
            forall a, b :: a in q && b in q && q[a].parent == q[b].parent ==> a == b
  {
    hide Exec, Initial, Spent, MakePicture, DeliveryOk, AttachmentOk;
    ReachableInv(db, steps);
  }

  // ----- Backfill tokens -----------------------------------------------------

  ghost predicate Accepts(db: Db, step: Step) {
    step.StepBackfill? && QueueBackfill(db, step.terminal, step.from, step.until, step.token, step.now).Ok?
  }

  lemma AcceptedFacts(db: Db, step: Step)
    requires Inv(db) && Accepts(db, step)
    ensures !Spent(db, step.token) && Spent(Apply(db, step), step.token)
  {
    hide Inv, Rows, Backfill.IsPreview, Spent, AddAll;
    BackfillKeepsInv(db, step.terminal, step.from, step.until, step.token, step.now);
    AcceptedIsUnspent(db, step.terminal, step.from, step.until, step.token);
  }

  /** Over a whole run no token is accepted twice. */
  lemma TokenAcceptedOnce(db: Db, steps: seq<Step>, i: nat, j: nat)
    requires Inv(db) && i < j < |steps|
    requires Accepts(Exec(db, steps[..i]), steps[i]) && Accepts(Exec(db, steps[..j]), steps[j])
    ensures steps[i].token != steps[j].token
  {
    hide Inv, Apply, Exec, Queued, Accepts;
    assert steps[i].StepBackfill? && steps[j].StepBackfill? by { AcceptsBackfill(db, steps, i, j); }
    ExecKeepsInv(db, steps[..i]);
    ExecKeepsInv(db, steps[..j]);
    AcceptedFacts(Exec(db, steps[..i]), steps[i]);
    AcceptedFacts(Exec(db, steps[..j]), steps[j]);
    var after := Apply(Exec(db, steps[..i]), steps[i]);
    ApplyKeepsInv(Exec(db, steps[..i]), steps[i]);
    ExecSplit(db, steps, i, j);
    RunQueued(after, steps[i + 1..j]);
    assert Spent(Exec(db, steps[..j]), steps[i].token);
  }

  lemma AcceptsBackfill(db: Db, steps: seq<Step>, i: nat, j: nat)
    requires i < j < |steps| && Accepts(Exec(db, steps[..i]), steps[i]) && Accepts(Exec(db, steps[..j]), steps[j])
    ensures steps[i].StepBackfill? && steps[j].StepBackfill?
  {
  }

  /** The same in every reachable state: no two recorded batches spent the same token. */
  lemma BatchesDiffer(db: Db, steps: seq<Step>, b: nat, c: nat)
    requires Initial(db)
    requires b in Exec(db, steps).batches && c in Exec(db, steps).batches && b != c
    ensures Exec(db, steps).batches[b].token != Exec(db, steps).batches[c].token
  {
    hide Exec, Initial, Spent, MakePicture, DeliveryOk, AttachmentOk;
    ReachableInv(db, steps);
  }

  ghost predicate AcceptsPictures(db: Db, step: Step) {
    step.StepPictures? && QueuePictures(db, step.terminal, step.asked, step.pictures, step.now).Ok?
  }

  lemma AcceptedPictures(db: Db, step: Step)
    requires Inv(db) && AcceptsPictures(db, step)
    ensures step.pictures.entries != []
    ensures !HasPicture(db, step.pictures.entries[0].delivery)
    ensures HasPicture(Apply(db, step), step.pictures.entries[0].delivery)
  {
    hide Inv, InOrder, Through, AddPictures, HasPicture;
    InvFresh(db);
    PicturesAdd(db, step.terminal, step.asked, step.pictures, step.now);
    var ids := InOrder(PicturelessIds(db, step.terminal, step.pictures.through));
    assert ids[0] in ids && step.pictures.entries[0].delivery == ids[0];
  }

  /** The token of a picture backfill is good for one use too. */
  lemma PictureTokenAcceptedOnce(db: Db, steps: seq<Step>, i: nat, j: nat)
    requires Inv(db) && i < j < |steps|
    requires AcceptsPictures(Exec(db, steps[..i]), steps[i]) && AcceptsPictures(Exec(db, steps[..j]), steps[j])
    ensures steps[i].pictures != steps[j].pictures
  {
    hide Inv, Apply, Exec, HasPicture, QueuePictures;
    ExecKeepsInv(db, steps[..i]);
    ExecKeepsInv(db, steps[..j]);
    AcceptedPictures(Exec(db, steps[..i]), steps[i]);
    AcceptedPictures(Exec(db, steps[..j]), steps[j]);
    var after := Apply(Exec(db, steps[..i]), steps[i]);
    ApplyKeepsInv(Exec(db, steps[..i]), steps[i]);
    ExecSplit(db, steps, i, j);
    RunQueued(after, steps[i + 1..j]);
  }

  // ----- What a backfill queues ----------------------------------------------

  /**
   Row `d` is the delivery of candidate `c`: its body, the approved destination, not yet tried, and a picture of its
   own.
   */
  predicate Backfilled(db: Db, d: nat, c: Backfill.Candidate, batch: nat, terminal: Serial, route: Route, now: int) {
    && d in db.deliveries && d + 1 in db.attachments
    && db.deliveries[d] == Delivery(OriginOf(c), Some(batch), terminal, route.endpoint, route.key, c.body, NewWork(now))
    && db.attachments[d + 1] == Attachment(d, None, NewWork(now))
  }

  /** The i-th candidate is the i-th new delivery. */
  lemma {:induction false} AddAllExact(db: Db, batch: nat, terminal: Serial, route: Route,
                                       candidates: seq<Backfill.Candidate>, now: int, i: nat)
    requires FreshIds(db) && i < |candidates|
    ensures Backfilled(AddAll(db, batch, terminal, route, candidates, now), db.nextId + 2 * i, candidates[i],
                       batch, terminal, route, now)
    decreases |candidates|
  {
    hide ArchiveStays, FreshIds;
    var c, rest := candidates[0], candidates[1..];
    var next := AddDelivery(db, OriginOf(c), Some(batch), terminal, route, c.body, now);
    AddDeliveryAdds(db, OriginOf(c), Some(batch), terminal, route, c.body, now);
    AddAllAdds(next, batch, terminal, route, rest, now);
    if i > 0 {
      assert rest[i - 1] == candidates[i];
      AddAllExact(next, batch, terminal, route, rest, now, i - 1);
    }
  }

  lemma {:induction false} AddAllCounts(db: Db, batch: nat, terminal: Serial, route: Route,
                                        candidates: seq<Backfill.Candidate>, now: int)
    requires FreshIds(db)
    ensures var after := AddAll(db, batch, terminal, route, candidates, now);
            && |after.deliveries| == |db.deliveries| + |candidates|
            && |after.attachments| == |db.attachments| + |candidates|
    decreases |candidates|
  {
    if candidates != [] {
      var c := candidates[0];
      var next := AddDelivery(db, OriginOf(c), Some(batch), terminal, route, c.body, now);
      assert db.nextId !in db.deliveries && db.nextId + 1 !in db.attachments;
      AddDeliveryAdds(db, OriginOf(c), Some(batch), terminal, route, c.body, now);
      AddAllCounts(next, batch, terminal, route, candidates[1..], now);
    }
  }

  lemma AcceptedPreview(db: Db, terminal: Serial, from: int, until: int, token: Backfill.Preview, now: int)
    requires QueueBackfill(db, terminal, from, until, token, now).Ok?
    ensures terminal in db.routes && token.route == db.routes[terminal] && |token.candidates| == token.eligible > 0
    ensures var begun := db.(batches := db.batches[db.nextId := Batch(terminal, token)], nextId := db.nextId + 1);
            QueueBackfill(db, terminal, from, until, token, now)
            == Ok(AddAll(begun, db.nextId, terminal, token.route, token.candidates, now))
  {
    hide Rows, AddAll, Backfill.AreIdentities, Backfill.Select, Backfill.FromSource;
  }

  lemma BeginIsFresh(db: Db, batch: Batch)
    requires FreshIds(db)
    ensures FreshIds(db.(batches := db.batches[db.nextId := batch], nextId := db.nextId + 1))
  {
  }

  /** An accepted backfill queues the previewed candidates, bodies and destination, and no more. */
  lemma BackfillQueuesExactly(db: Db, terminal: Serial, from: int, until: int, token: Backfill.Preview, now: int)
    requires Inv(db) && QueueBackfill(db, terminal, from, until, token, now).Ok?
    ensures var after := QueueBackfill(db, terminal, from, until, token, now).value;
            && |token.candidates| == token.eligible > 0 && terminal in db.routes && token.route == db.routes[terminal]
            && |after.deliveries| == |db.deliveries| + token.eligible
            && |after.attachments| == |db.attachments| + token.eligible
            && QueuesGrow(db, after)
            && (forall i :: 0 <= i < |token.candidates| ==>
                  Backfilled(after, db.nextId + 1 + 2 * i, token.candidates[i], db.nextId, terminal, token.route, now))
  {
    hide Inv, QueueBackfill, AddAll, Backfilled, ArchiveStays, FreshIds, QueuesGrow;
    InvFresh(db);
    AcceptedPreview(db, terminal, from, until, token, now);
    var begun := db.(batches := db.batches[db.nextId := Batch(terminal, token)], nextId := db.nextId + 1);
    BeginIsFresh(db, Batch(terminal, token));
    BackfillAdds(db, terminal, from, until, token, now);
    AddAllCounts(begun, db.nextId, terminal, token.route, token.candidates, now);
    var after := QueueBackfill(db, terminal, from, until, token, now).value;
    forall i | 0 <= i < |token.candidates|
      ensures Backfilled(after, db.nextId + 1 + 2 * i, token.candidates[i], db.nextId, terminal, token.route, now)
    {
      AddAllExact(begun, db.nextId, terminal, token.route, token.candidates, now, i);
    }
  }

  // ----- The preview that follows --------------------------------------------

  predicate HasRow(rows: seq<Backfill.Row>, origin: Origin) {
    exists i :: 0 <= i < |rows| && RowOrigin(rows[i]) == origin
  }

  /** The preview looks at exactly the attendance records of the terminal in the half-open range, of either archive. */
  lemma RowsCoverRange(db: Db, terminal: Serial, from: int, until: int, id: nat)
    ensures HasRow(Rows(db, terminal, from, until), Live(id)) <==>
              && id in db.events && db.events[id].terminal == terminal && IsScan(db.events[id])
              && db.events[id].projection.scan.occurredAt.Some?
              && from <= db.events[id].projection.scan.occurredAt.value < until
    ensures HasRow(Rows(db, terminal, from, until), Retained(id)) <==>
              && id in db.records && db.records[id].terminal == terminal
              && db.records[id].major == 5 && db.records[id].sub == 75
              && db.records[id].scan.occurredAt.Some? && from <= db.records[id].scan.occurredAt.value < until
  {
    hide Queued, InOrder;
    var live := InOrder(LiveIds(db, terminal, from, until));
    var records := InOrder(RecordIds(db, terminal, from, until));
    var rows := Rows(db, terminal, from, until);
    forall i | 0 <= i < |live| ensures RowOrigin(rows[i]) == Live(live[i]) {
      assert live[i] in live;
    }
    forall i | 0 <= i < |records| ensures RowOrigin(rows[|live| + i]) == Retained(records[i]) {
      assert records[i] in records;
    }
    Enumerates(rows, live, records, id);
  }

  lemma Enumerates(rows: seq<Backfill.Row>, live: seq<nat>, records: seq<nat>, id: nat)
    requires |rows| == |live| + |records|
    requires forall i :: 0 <= i < |live| ==> RowOrigin(rows[i]) == Live(live[i])
    requires forall i :: 0 <= i < |records| ==> RowOrigin(rows[|live| + i]) == Retained(records[i])
    ensures HasRow(rows, Live(id)) <==> id in live
    ensures HasRow(rows, Retained(id)) <==> id in records
  {
    if id in live {
      var i :| 0 <= i < |live| && live[i] == id;
      assert RowOrigin(rows[i]) == Live(id);
    }
    if id in records {
      var i :| 0 <= i < |records| && records[i] == id;
      assert RowOrigin(rows[|live| + i]) == Retained(id);
    }
    forall i | 0 <= i < |rows|
      ensures RowOrigin(rows[i]) == Live(id) ==> id in live
      ensures RowOrigin(rows[i]) == Retained(id) ==> id in records
    {
      if i >= |live| {
        assert RowOrigin(rows[|live| + (i - |live|)]) == Retained(records[i - |live|]);
      }
    }
  }

  function RowOrigin(row: Backfill.Row): Origin {
    if row.message.source.PushSDK? then Live(row.id) else Retained(row.id)
  }

  /** The candidates are exactly the eligible rows. */
  lemma ListedIsEligible(rows: seq<Backfill.Row>, candidates: seq<Backfill.Candidate>, row: Backfill.Row)
    requires Backfill.NoRowTwice(rows) && row in rows
    requires candidates == Backfill.CandidatesOf(Backfill.Select(rows, rows, Backfill.Eligible))
    ensures Lists(candidates, RowOrigin(row)) <==> Backfill.Classify(rows, row).Eligible?
  {
    hide Backfill.Select, Backfill.Classify;
    var q := Backfill.Select(rows, rows, Backfill.Eligible);
    Backfill.Selected(rows, rows, Backfill.Eligible);
    if Lists(candidates, RowOrigin(row)) {
      var k :| 0 <= k < |candidates| && OriginOf(candidates[k]) == RowOrigin(row);
      assert q[k] in rows && Backfill.SameRow(q[k], row);
      var i :| 0 <= i < |rows| && rows[i] == row;
      var j :| 0 <= j < |rows| && rows[j] == q[k];
      assert i == j;
    }
    if Backfill.Classify(rows, row).Eligible? {
      var k :| 0 <= k < |q| && q[k] == row;
      assert OriginOf(candidates[k]) == RowOrigin(row);
    }
  }

  lemma {:induction false} RowsAfter(db: Db, after: Db, terminal: Serial, from: int, until: int,
                                     candidates: seq<Backfill.Candidate>)
    requires after.events == db.events && after.records == db.records
    requires forall origin :: Queued(after, origin) <==> Queued(db, origin) || Lists(candidates, origin)
    requires var rows := Rows(db, terminal, from, until);
             candidates == Backfill.CandidatesOf(Backfill.Select(rows, rows, Backfill.Eligible))
    ensures Rows(after, terminal, from, until) == Backfill.Requeued(Rows(db, terminal, from, until))
  {
    hide Queued, Lists, InOrder, Backfill.Select, Backfill.Classify;
    var rows := Rows(db, terminal, from, until);
    assert LiveIds(after, terminal, from, until) == LiveIds(db, terminal, from, until);
    assert RecordIds(after, terminal, from, until) == RecordIds(db, terminal, from, until);
    var live := InOrder(LiveIds(db, terminal, from, until));
    var records := InOrder(RecordIds(db, terminal, from, until));
    RowsAreRows(db, terminal, from, until);
    forall i | 0 <= i < |rows|
      ensures Rows(after, terminal, from, until)[i] == Backfill.Requeued(rows)[i]
    {
      ListedIsEligible(rows, candidates, rows[i]);
      if i < |live| {
        assert live[i] in live;
        assert rows[i] == LiveRow(db, live[i]) && Rows(after, terminal, from, until)[i] == LiveRow(after, live[i]);
      } else {
        assert records[i - |live|] in records;
        assert rows[i] == RecordRow(db, records[i - |live|])
            && Rows(after, terminal, from, until)[i] == RecordRow(after, records[i - |live|]);
      }
    }
  }

  /** Steps that leave the archive as it is. */
  predicate Quiet(step: Step) {
    !step.StepIngest? && !step.StepImport? && !step.StepReproject?
  }

  /** The archive is the same, and what was queued is queued. */
  ghost predicate SameArchive(db: Db, db': Db) {
    && db'.events == db.events && db'.records == db.records
    && forall origin :: Queued(db, origin) ==> Queued(db', origin)
  }

  lemma {:induction false} QuietKeepsArchive(db: Db, steps: seq<Step>)
    requires Inv(db) && forall step :: step in steps ==> Quiet(step)
    ensures SameArchive(db, Exec(db, steps))
    decreases |steps|
  {
    hide Inv, Apply, Queued;
    if steps != [] {
      assert steps[0] in steps && forall step :: step in steps[1..] ==> step in steps;
      QuietStep(db, steps[0]);
      ApplyKeepsInv(db, steps[0]);
      QuietKeepsArchive(Apply(db, steps[0]), steps[1..]);
    }
  }

  lemma QuietStep(db: Db, step: Step)
    requires Inv(db) && Quiet(step)
    ensures SameArchive(db, Apply(db, step))
  {
    hide Inv, Apply, Queued;
    if step.StepBackfill? {
      BackfillStep(db, step);
    } else {
      var db' := Apply(db, step);
      QuietTables(db, step);
      forall origin ensures Queued(db', origin) == Queued(db, origin) {
        QuietQueue(db, db', origin);
      }
    }
  }

  lemma BackfillStep(db: Db, step: Step)
    requires Inv(db) && step.StepBackfill?
    ensures SameArchive(db, Apply(db, step))
  {
    hide Inv, Queued, QueueBackfill;
    if QueueBackfill(db, step.terminal, step.from, step.until, step.token, step.now).Ok? {
      BackfillKeepsInv(db, step.terminal, step.from, step.until, step.token, step.now);
    }
  }

  lemma QuietQueue(db: Db, db': Db, origin: Origin)
    requires db'.deliveries.Keys == db.deliveries.Keys
    requires forall d :: d in db.deliveries ==> db'.deliveries[d].origin == db.deliveries[d].origin
    ensures Queued(db', origin) == Queued(db, origin)
  {
    assert forall d :: Carries(db', d, origin) == Carries(db, d, origin);
  }

  /** On the same archive the preview has the same rows, some of which may be queued by now. */
  lemma RowsGrow(db: Db, db': Db, terminal: Serial, from: int, until: int)
    requires SameArchive(db, db')
    ensures Backfill.QueuedSince(Rows(db, terminal, from, until), Rows(db', terminal, from, until))
  {
    hide Queued, InOrder;
    var rows, rows' := Rows(db, terminal, from, until), Rows(db', terminal, from, until);
    assert LiveIds(db', terminal, from, until) == LiveIds(db, terminal, from, until);
    assert RecordIds(db', terminal, from, until) == RecordIds(db, terminal, from, until);
    var live := InOrder(LiveIds(db, terminal, from, until));
    var records := InOrder(RecordIds(db, terminal, from, until));
    forall i | 0 <= i < |rows|
      ensures rows'[i] == rows[i].(queued := rows'[i].queued) && (rows[i].queued ==> rows'[i].queued)
    {
      if i < |live| {
        assert live[i] in live && rows[i] == LiveRow(db, live[i]) && rows'[i] == LiveRow(db', live[i]);
      } else {
        var k := i - |live|;
        assert records[k] in records && rows[i] == RecordRow(db, records[k]) && rows'[i] == RecordRow(db', records[k]);
      }
    }
  }

  /** The archive and what the deliveries carry are the same. */
  ghost predicate SameTables(db: Db, db': Db) {
    && db'.events == db.events && db'.records == db.records && db'.deliveries.Keys == db.deliveries.Keys
    && forall d :: d in db.deliveries ==> db'.deliveries[d].origin == db.deliveries[d].origin
  }

  lemma ClaimTables(db: Db, item: Item, now: int)
    requires Claimable(db, item, now) && ClaimItem(db, item, now).Ok?
    ensures var after := ClaimItem(db, item, now).value.db;
            SameTables(db, after) && after.routes == db.routes && after.attachments.Keys == db.attachments.Keys
  {
    hide MakePicture, Due, RouteEnabled;
  }

  lemma SetWorkTables(db: Db, item: Item, w: Work)
    requires Exists(db, item)
    ensures SameTables(db, SetWork(db, item, w)) && SetWork(db, item, w).routes == db.routes
    ensures SetWork(db, item, w).attachments.Keys == db.attachments.Keys
  {
  }

  lemma QuietTables(db: Db, step: Step)
    requires Inv(db) && Quiet(step) && !step.StepBackfill?
    ensures SameTables(db, Apply(db, step))
  {
    hide Inv, ClaimNext, ClaimItem, Claimable, QueuePictures, Busy, Open, SetWork;
    match step
    case StepClaim(queue, locked, now) =>
      var claim := ClaimNext(db, queue, locked, now);
      if claim.Ok? && claim.value.Some? {
        ClaimedItem(db, step, claim.value.value.ticket.item);
        ClaimTables(db, claim.value.value.ticket.item, now);
      }
    case StepPictures(t, asked, pictures, now) =>
      if QueuePictures(db, t, asked, pictures, now).Ok? {
        PicturesTables(db, step);
      }
    case StepFinish(item, attempts, verdict, next) =>
      if Exists(db, item) {
        SetWorkTables(db, item, Settle(WorkOf(db, item), verdict, next));
      }
    case StepRetry(item, now) =>
      if Exists(db, item) {
        SetWorkTables(db, item, Revive(WorkOf(db, item), now));
      }
    case _ =>
  }

  lemma {:induction false} AddPicturesTables(db: Db, entries: seq<PictureEntry>, now: int)
    ensures var after := AddPictures(db, entries, now);
            && after.events == db.events && after.records == db.records && after.deliveries == db.deliveries
            && after.routes == db.routes
    decreases |entries|
  {
    if entries != [] {
      var a := Attachment(entries[0].delivery, None, NewWork(now));
      AddPicturesTables(db.(attachments := db.attachments[db.nextId := a], nextId := db.nextId + 1), entries[1..], now);
    }
  }

  lemma PicturesTables(db: Db, step: Step)
    requires AcceptsPictures(db, step)
    ensures var after := QueuePictures(db, step.terminal, step.asked, step.pictures, step.now).value;
            && after.events == db.events && after.records == db.records && after.deliveries == db.deliveries
            && after.routes == db.routes
  {
    hide IsPicturePreview, Through, AddPictures;
    AddPicturesTables(db, step.pictures.entries, step.now);
  }

  /**
   While the archive stays as it is, whatever workers and administrators do, further backfills included: the next
   preview of the same range finds nothing eligible, counts what was queued as queued, and judges every other row as
   before.
   */
  lemma NextPreviewFindsNothing(db: Db, terminal: Serial, from: int, until: int, token: Backfill.Preview, now: int,
                                steps: seq<Step>, next: Backfill.Preview)
    requires Inv(db) && QueueBackfill(db, terminal, from, until, token, now).Ok?
    requires forall step :: step in steps ==> Quiet(step)
    requires var reached := Exec(QueueBackfill(db, terminal, from, until, token, now).value, steps);
             Backfill.IsPreview(next, Rows(reached, terminal, from, until), terminal, next.route, from, until)
    ensures next.eligible == 0 && next.candidates == [] && next.identities == []
    ensures next.alreadyQueued == token.alreadyQueued + token.eligible
    ensures next.duplicateSources == token.duplicateSources && next.invalid == token.invalid
  {
    hide Inv, Exec, Rows, Queued, AddAll, Backfill.Select, Backfill.Requeued, Backfill.AreIdentities;
    var after := QueueBackfill(db, terminal, from, until, token, now).value;
    BackfillKeepsInv(db, terminal, from, until, token, now);
    RowsAfter(db, after, terminal, from, until, token.candidates);
    QuietKeepsArchive(after, steps);
    RowsGrow(after, Exec(after, steps), terminal, from, until);
    Backfill.NextPreview(Rows(db, terminal, from, until), Rows(Exec(after, steps), terminal, from, until), token,
                         next.(route := token.route), terminal, token.route, from, until);
  }
}
