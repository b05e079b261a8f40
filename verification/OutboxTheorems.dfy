/**
 What the outbox guarantees for any number of workers, through any interleaving
 of claims, reports, crashes, lease expiries, retries, route edits, ingestion and
 backfills.
 */
module OutboxTheorems {
  import opened Wrappers
  import opened Terminals
  import opened Messages
  import opened OutboxModel
  import opened OutboxInvariant
  import Backfill

  lemma ReachableInv(db: Db, steps: seq<Step>)
    requires Initial(db)
    ensures Inv(Exec(db, steps))
  {
    InitialInv(db);
    ExecKeepsInv(db, steps);
  }

  lemma {:induction false} ExecConcat(db: Db, a: seq<Step>, b: seq<Step>)
    ensures Exec(db, a + b) == Exec(Exec(db, a), b)
    decreases |a|
  {
    hide Apply;
    if a == [] {
      assert a + b == b;
    } else {
      assert (a + b)[1..] == a[1..] + b;
      ExecConcat(Apply(db, a[0]), a[1..], b);
    }
  }

  /** The state before step `j` of a run, reached from the state after step `i`. */
  lemma ExecSplit(db: Db, steps: seq<Step>, i: nat, j: nat)
    requires i < j <= |steps|
    ensures Exec(db, steps[..j]) == Exec(Apply(Exec(db, steps[..i]), steps[i]), steps[i + 1..j])
  {
    hide Apply;
    assert steps[..j] == steps[..i] + steps[i..j];
    ExecConcat(db, steps[..i], steps[i..j]);
    assert steps[i..j][0] == steps[i] && steps[i..j][1..] == steps[i + 1..j];
  }

  // ----- What a step does to the rows that exist -----------------------------

  ghost predicate FreshIds(db: Db) {
    && (forall d :: d in db.deliveries ==> d < db.nextId) && (forall a :: a in db.attachments ==> a < db.nextId)
    && (forall e :: e in db.events ==> e < db.nextId) && (forall r :: r in db.records ==> r < db.nextId)
    && (forall b :: b in db.batches ==> b < db.nextId)
  }

  ghost predicate ArchiveStays(db: Db, db': Db) {
    && db.terminals <= db'.terminals
    && (forall e :: e in db.events ==>
          && e in db'.events && db'.events[e].terminal == db.events[e].terminal
          && db'.events[e].vendorId == db.events[e].vendorId && db'.events[e].payload == db.events[e].payload)
    && (forall r :: r in db.records ==> r in db'.records && db'.records[r] == db.records[r])
    && (forall b :: b in db.batches ==> b in db'.batches && db'.batches[b] == db.batches[b])
  }

  /** Both queues only gain rows. */
  ghost predicate QueuesGrow(db: Db, db': Db) {
    && (forall d :: d in db.deliveries ==> d in db'.deliveries && db'.deliveries[d] == db.deliveries[d])
    && (forall a :: a in db.attachments ==> a in db'.attachments && db'.attachments[a] == db.attachments[a])
  }

  ghost predicate Adds(db: Db, db': Db) {
    FreshIds(db') && db.nextId <= db'.nextId && ArchiveStays(db, db') && QueuesGrow(db, db')
  }

  lemma AddsTransitive(a: Db, b: Db, c: Db)
    requires Adds(a, b) && Adds(b, c)
    ensures Adds(a, c)
  {
  }

  lemma InvFresh(db: Db)
    requires Inv(db)
    ensures FreshIds(db)
  {
    hide Spent, MakePicture, Unique, OriginOk;
    forall d | d in db.deliveries ensures d < db.nextId { assert DeliveryOk(db, d); }
    forall a | a in db.attachments ensures a < db.nextId { assert AttachmentOk(db, a); }
  }

  lemma AddDeliveryAdds(db: Db, origin: Origin, batch: Option<nat>, terminal: Serial, route: Route, body: Message,
                        now: int)
    requires FreshIds(db)
    ensures Adds(db, AddDelivery(db, origin, batch, terminal, route, body, now))
  {
  }

  lemma InsertEventAdds(db: Db, e: DeviceEvent, now: int)
    requires FreshIds(db)
    ensures InsertEvent(db, e, now).Ok? ==> Adds(db, InsertEvent(db, e, now).value)
  {
    hide Archived;
    var added := db.(events := db.events[db.nextId := e], nextId := db.nextId + 1);
    assert Adds(db, added);
    if InsertEvent(db, e, now).Ok? && Qualifies(e) && RouteEnabled(db, e.terminal) {
      AddDeliveryAdds(added, Live(db.nextId), None, e.terminal, db.routes[e.terminal], LiveMessage(e), now);
      AddsTransitive(db, added, AddDelivery(added, Live(db.nextId), None, e.terminal, db.routes[e.terminal],
                                            LiveMessage(e), now));
    }
  }

  lemma {:induction false} IngestAdds(db: Db, batch: seq<DeviceEvent>, now: int)
    requires FreshIds(db)
    ensures Ingest(db, batch, now).Ok? ==> Adds(db, Ingest(db, batch, now).value)
    decreases |batch|
  {
    hide InsertEvent, ArchiveStays, QueuesGrow;
    if batch == [] {
      AddsNothing(db);
    } else if InsertEvent(db, batch[0], now).Ok? {
      InsertEventAdds(db, batch[0], now);
      var next := InsertEvent(db, batch[0], now).value;
      IngestAdds(next, batch[1..], now);
      if Ingest(db, batch, now).Ok? {
        AddsTransitive(db, next, Ingest(db, batch, now).value);
      }
    }
  }

  lemma AddsNothing(db: Db)
    requires FreshIds(db)
    ensures Adds(db, db)
  {
  }

  lemma {:induction false} AddAllAdds(db: Db, batch: nat, terminal: Serial, route: Route,
                                      candidates: seq<Backfill.Candidate>, now: int)
    requires FreshIds(db)
    ensures Adds(db, AddAll(db, batch, terminal, route, candidates, now))
    decreases |candidates|
  {
    hide ArchiveStays, QueuesGrow, FreshIds;
    if candidates == [] {
      AddsNothing(db);
    } else {
      var c := candidates[0];
      var next := AddDelivery(db, OriginOf(c), Some(batch), terminal, route, c.body, now);
      AddDeliveryAdds(db, OriginOf(c), Some(batch), terminal, route, c.body, now);
      AddAllAdds(next, batch, terminal, route, candidates[1..], now);
      AddsTransitive(db, next, AddAll(db, batch, terminal, route, candidates, now));
    }
  }

  lemma {:induction false} AddPicturesAdds(db: Db, entries: seq<PictureEntry>, now: int)
    requires FreshIds(db)
    ensures Adds(db, AddPictures(db, entries, now)) && AddPictures(db, entries, now).deliveries == db.deliveries
    ensures forall i :: 0 <= i < |entries| ==> HasPicture(AddPictures(db, entries, now), entries[i].delivery)
    decreases |entries|
  {
    if entries != [] {
      var d := entries[0].delivery;
      var next := db.(attachments := db.attachments[db.nextId := Attachment(d, None, NewWork(now))],
                      nextId := db.nextId + 1);
      assert Adds(db, next);
      AddPicturesAdds(next, entries[1..], now);
      var last := AddPictures(db, entries, now);
      assert db.nextId in last.attachments && last.attachments[db.nextId].parent == d;
      forall i | 0 <= i < |entries| ensures HasPicture(last, entries[i].delivery) {
        assert i > 0 ==> entries[1..][i - 1] == entries[i];
      }
    }
  }

  lemma BackfillAdds(db: Db, terminal: Serial, from: int, until: int, token: Backfill.Preview, now: int)
    requires FreshIds(db) && QueueBackfill(db, terminal, from, until, token, now).Ok?
    ensures Adds(db, QueueBackfill(db, terminal, from, until, token, now).value)
  {
    hide Rows, Backfill.IsPreview, AddAll;
    var begun := db.(batches := db.batches[db.nextId := Batch(terminal, token)], nextId := db.nextId + 1);
    assert Adds(db, begun);
    AddAllAdds(begun, db.nextId, terminal, token.route, token.candidates, now);
    AddsTransitive(db, begun, AddAll(begun, db.nextId, terminal, token.route, token.candidates, now));
  }

  predicate OnQueues(step: Step) { step.StepClaim? || step.StepFinish? || step.StepRetry? }

  /** Terminals, routes and the archive written elsewhere. */
  predicate Aside(step: Step) {
    step.StepTerminal? || step.StepImport? || step.StepReproject? || step.StepSaveRoute? || step.StepDeleteRoute?
  }

  lemma RoutesAdd(db: Db, terminals: set<Serial>, routes: map<Serial, Route>)
    requires FreshIds(db) && db.terminals <= terminals
    ensures Adds(db, db.(terminals := terminals, routes := routes))
  {
  }

  lemma RecordAdds(db: Db, record: RetainedEvent)
    requires FreshIds(db)
    ensures Adds(db, db.(records := db.records[db.nextId := record], nextId := db.nextId + 1))
  {
  }

  lemma ProjectionAdds(db: Db, id: nat, projection: Projection)
    requires FreshIds(db) && id in db.events
    ensures Adds(db, db.(events := db.events[id := db.events[id].(projection := projection)]))
  {
  }

  lemma AsideAdds(db: Db, step: Step)
    requires FreshIds(db) && Aside(step)
    ensures Adds(db, Apply(db, step))
  {
    hide Adds, Busy, Open, FreshIds;
    AddsNothing(db);
    match step
    case StepTerminal(t) => RoutesAdd(db, db.terminals + {t}, db.routes);
    case StepImport(record) => RecordAdds(db, record);
    case StepReproject(id, projection) =>
      if id in db.events {
        ProjectionAdds(db, id, projection);
      }
    case StepSaveRoute(t, route) => RoutesAdd(db, db.terminals, db.routes[t := route]);
    case StepDeleteRoute(t) => RoutesAdd(db, db.terminals, db.routes - {t});
  }

  /** Every step but a claim, a report and a retry leaves the existing rows of both queues as they are. */
  lemma OthersAdd(db: Db, step: Step)
    requires Inv(db) && !OnQueues(step)
    ensures Adds(db, Apply(db, step))
  {
    hide Inv, Adds, Ingest, QueueBackfill, QueuePictures;
    InvFresh(db);
    AddsNothing(db);
    match step
    case StepIngest(events, now) => IngestAdds(db, events, now);
    case StepBackfill(t, from, until, token, now) =>
      if QueueBackfill(db, t, from, until, token, now).Ok? {
        BackfillAdds(db, t, from, until, token, now);
      }
    case StepPictures(t, asked, token, now) =>
      if QueuePictures(db, t, asked, token, now).Ok? {
        PicturesAdd(db, t, asked, token, now);
      }
    case _ =>
      hide Apply;
      AsideAdds(db, step);
  }

  lemma PicturesAdd(db: Db, terminal: Serial, asked: int, token: PictureToken, now: int)
    requires FreshIds(db) && QueuePictures(db, terminal, asked, token, now).Ok?
    ensures var next := QueuePictures(db, terminal, asked, token, now).value;
            && Adds(db, next) && next.deliveries == db.deliveries
            && forall i :: 0 <= i < |token.entries| ==> HasPicture(next, token.entries[i].delivery)
  {
    hide IsPicturePreview, Through;
    AddPicturesAdds(db, token.entries, now);
  }

  // ----- Claims, reports and retries -----------------------------------------

  /** In state `db`, the step hands out the item. */
  ghost predicate Claims(db: Db, step: Step, item: Item) {
    && step.StepClaim?
    && var claim := ClaimNext(db, step.queue, step.locked, step.now);
       claim.Ok? && claim.value.Some? && claim.value.value.ticket.item == item
  }

  ghost function TicketOf(db: Db, step: Step, item: Item): Ticket
    requires Claims(db, step, item)
  {
    ClaimNext(db, step.queue, step.locked, step.now).value.value.ticket
  }

  ghost predicate Reports(db: Db, step: Step, item: Item) {
    step.StepFinish? && step.item == item && Finish(db, item, step.attempts, step.verdict, step.next).Ok?
  }

  ghost predicate Retries(db: Db, step: Step, item: Item) {
    step.StepRetry? && step.item == item && Retry(db, item, step.now).Ok?
  }

  /** What identifies an item and what it carries never changes; a picture is made at most once. */
  predicate SameContent(db: Db, db': Db, item: Item)
    requires Exists(db, item) && Exists(db', item)
  {
    match item
    case EventItem(d) => db'.deliveries[d].(work := db.deliveries[d].work) == db.deliveries[d]
    case PictureItem(a) =>
      && db'.attachments[a].parent == db.attachments[a].parent
      && (db.attachments[a].body.Some? ==> db'.attachments[a].body == db.attachments[a].body)
  }

  lemma ClaimedItem(db: Db, step: Step, item: Item)
    requires Claims(db, step, item)
    ensures step.StepClaim? && Claimable(db, item, step.now) && ClaimItem(db, item, step.now).Ok?
    ensures Apply(db, step) == ClaimItem(db, item, step.now).value.db
    ensures TicketOf(db, step, item) == ClaimItem(db, item, step.now).value.ticket
    ensures item.id !in step.locked && item == ItemOf(step.queue, item.id)
    ensures forall id :: id in Candidates(db, step.queue, step.locked, step.now) ==> item.id <= id
  {
    hide Claimable;
    var candidates := Candidates(db, step.queue, step.locked, step.now);
    LowestExists(candidates);
    var id :| Lowest(id, candidates) && ClaimNext(db, step.queue, step.locked, step.now)
                                        == Ok(Some(ClaimItem(db, ItemOf(step.queue, id), step.now).value));
    assert ItemOf(step.queue, id) == item;
  }

  lemma ClaimItemElsewhere(db: Db, claimed: Item, now: int, item: Item)
    requires Exists(db, item) && Claimable(db, claimed, now) && ClaimItem(db, claimed, now).Ok? && item != claimed
    ensures var db' := ClaimItem(db, claimed, now).value.db;
            && Exists(db', item) && SameContent(db, db', item)
            && WorkOf(db', item) == WorkOf(db, item) && ArchiveStays(db, db')
  {
    hide MakePicture;
  }

  /** A claim that hands out nothing, or another item, leaves this one alone. */
  lemma ClaimElsewhere(db: Db, step: Step, item: Item)
    requires Exists(db, item) && step.StepClaim? && !Claims(db, step, item)
    ensures Exists(Apply(db, step), item) && SameContent(db, Apply(db, step), item)
    ensures WorkOf(Apply(db, step), item) == WorkOf(db, item)
    ensures ArchiveStays(db, Apply(db, step))
  {
    hide ClaimNext, Claimable, ClaimItem, SameContent, ArchiveStays;
    var claim := ClaimNext(db, step.queue, step.locked, step.now);
    SameAsBefore(db, item);
    if claim.Ok? && claim.value.Some? {
      var claimed := claim.value.value.ticket.item;
      ClaimedItem(db, step, claimed);
      ClaimItemElsewhere(db, claimed, step.now, item);
    }
  }

  lemma ClaimHere(db: Db, step: Step, item: Item)
    requires Claims(db, step, item)
    ensures step.StepClaim? && Exists(db, item) && Due(WorkOf(db, item), step.now)
    ensures Exists(Apply(db, step), item) && SameContent(db, Apply(db, step), item)
    ensures WorkOf(Apply(db, step), item) == Take(WorkOf(db, item), step.now)
    ensures ArchiveStays(db, Apply(db, step))
  {
    hide ClaimNext, Claims, Apply, MakePicture;
    ClaimedItem(db, step, item);
  }

  lemma SetWorkItem(db: Db, other: Item, w: Work, item: Item)
    requires Exists(db, other) && Exists(db, item)
    ensures var db' := SetWork(db, other, w);
            && Exists(db', item) && SameContent(db, db', item) && ArchiveStays(db, db')
            && WorkOf(db', item) == if item == other then w else WorkOf(db, item)
  {
  }

  lemma SameAsBefore(db: Db, item: Item)
    requires Exists(db, item)
    ensures SameContent(db, db, item) && ArchiveStays(db, db)
  {
  }

  lemma ReportItem(db: Db, step: Step, item: Item)
    requires Exists(db, item) && step.StepFinish?
    ensures Exists(Apply(db, step), item) && SameContent(db, Apply(db, step), item)
    ensures var w, w' := WorkOf(db, item), WorkOf(Apply(db, step), item);
            if Reports(db, step, item) then
              w.status.Sending? && w.attempts == step.attempts && w' == Settle(w, step.verdict, step.next)
            else w' == w
    ensures ArchiveStays(db, Apply(db, step))
  {
    hide SetWork, WorkOf, SameContent, ArchiveStays;
    if Exists(db, step.item) {
      SetWorkItem(db, step.item, Settle(WorkOf(db, step.item), step.verdict, step.next), item);
    }
    SameAsBefore(db, item);
  }

  lemma RetryItem(db: Db, step: Step, item: Item)
    requires Exists(db, item) && step.StepRetry?
    ensures Exists(Apply(db, step), item) && SameContent(db, Apply(db, step), item)
    ensures var w, w' := WorkOf(db, item), WorkOf(Apply(db, step), item);
            if Retries(db, step, item) then w.status.Failed? && w' == Revive(w, step.now) else w' == w
    ensures ArchiveStays(db, Apply(db, step))
  {
    hide SetWork, WorkOf, SameContent, ArchiveStays;
    if Exists(db, step.item) {
      SetWorkItem(db, step.item, Revive(WorkOf(db, step.item), step.now), item);
    }
    SameAsBefore(db, item);
  }

  /** The whole life of an item: what one step may do to its lease. */
  lemma StepItem(db: Db, step: Step, item: Item)
    requires Inv(db) && Exists(db, item)
    ensures Exists(Apply(db, step), item) && SameContent(db, Apply(db, step), item)
    ensures var w, w' := WorkOf(db, item), WorkOf(Apply(db, step), item);
            if Claims(db, step, item) then Due(w, step.now) && w' == Take(w, step.now)
            else if Reports(db, step, item) then
              w.status.Sending? && w.attempts == step.attempts && w' == Settle(w, step.verdict, step.next)
            else if Retries(db, step, item) then w.status.Failed? && w' == Revive(w, step.now)
            else w' == w
    ensures ArchiveStays(db, Apply(db, step))
  {
    hide Inv, Apply, Claims, Due, Retry, Finish, Settle, Revive, Take;
    match step
    case StepClaim(_, _, _) =>
      if Claims(db, step, item) {
        ClaimHere(db, step, item);
      } else {
        ClaimElsewhere(db, step, item);
      }
    case StepFinish(_, _, _, _) =>
      ReportItem(db, step, item);
      OnlyClaimsClaim(db, step, item);
    case StepRetry(_, _) =>
      RetryItem(db, step, item);
      OnlyClaimsClaim(db, step, item);
    case _ =>
      OthersAdd(db, step);
      OnlyClaimsClaim(db, step, item);
  }

  lemma OnlyClaimsClaim(db: Db, step: Step, item: Item)
    ensures Claims(db, step, item) ==> step.StepClaim?
  {
  }

  // ----- Generations ---------------------------------------------------------

  ghost function CountClaims(db: Db, steps: seq<Step>, item: Item): nat
    decreases |steps|
  {
    if steps == [] then 0
    else (if Claims(db, steps[0], item) then 1 else 0) + CountClaims(Apply(db, steps[0]), steps[1..], item)
  }

  /** The attempts of an item are exactly its claims. */
  lemma {:induction false} AttemptsCountClaims(db: Db, steps: seq<Step>, item: Item)
    requires Inv(db) && Exists(db, item)
    ensures Exists(Exec(db, steps), item)
    ensures WorkOf(Exec(db, steps), item).attempts == WorkOf(db, item).attempts + CountClaims(db, steps, item)
    decreases |steps|
  {
    hide Inv, Apply, Claims, Due, SameContent, ArchiveStays;
    if steps != [] {
      StepItem(db, steps[0], item);
      ApplyKeepsInv(db, steps[0]);
      AttemptsCountClaims(Apply(db, steps[0]), steps[1..], item);
    }
  }

  /** Generation `n` of the item is over: a later one was claimed, or its result is in. */
  predicate Over(w: Work, n: nat) { w.attempts > n || (w.attempts == n && !w.status.Sending?) }

  lemma {:induction false} RunItem(db: Db, steps: seq<Step>, item: Item)
    requires Inv(db) && Exists(db, item)
    ensures Exists(Exec(db, steps), item) && SameContent(db, Exec(db, steps), item) && Inv(Exec(db, steps))
    ensures var w, w' := WorkOf(db, item), WorkOf(Exec(db, steps), item);
            && w.attempts <= w'.attempts && (w.status.Delivered? ==> w' == w)
            && forall n :: Over(w, n) ==> Over(w', n)
    ensures ArchiveStays(db, Exec(db, steps))
    decreases |steps|
  {
    hide Inv, Apply, Claims, Reports, Retries;
    if steps != [] {
      StepItem(db, steps[0], item);
      ApplyKeepsInv(db, steps[0]);
      RunItem(Apply(db, steps[0]), steps[1..], item);
    }
  }

  /** Delivered is final, and the row keeps its destination, key and body for ever. */
  lemma DeliveredForever(db: Db, steps: seq<Step>, item: Item)
    requires Inv(db) && Exists(db, item) && WorkOf(db, item).status.Delivered?
    ensures Exists(Exec(db, steps), item) && WorkOf(Exec(db, steps), item) == WorkOf(db, item)
  {
    RunItem(db, steps, item);
  }

  lemma ContentForever(db: Db, steps: seq<Step>, d: nat)
    requires Inv(db) && d in db.deliveries
    ensures d in Exec(db, steps).deliveries
    ensures Exec(db, steps).deliveries[d].(work := db.deliveries[d].work) == db.deliveries[d]
  {
    RunItem(db, steps, EventItem(d));
  }

  lemma ClaimFacts(db: Db, step: Step, item: Item)
    requires Inv(db) && Claims(db, step, item)
    ensures Exists(db, item) && Exists(Apply(db, step), item)
    ensures TicketOf(db, step, item).attempts == WorkOf(Apply(db, step), item).attempts == WorkOf(db, item).attempts + 1
    ensures WorkOf(Apply(db, step), item) == Take(WorkOf(db, item), step.now)
  {
    hide Inv, ClaimNext, Claims, Apply, MakePicture;
    ClaimedItem(db, step, item);
    ClaimHere(db, step, item);
  }

  /** The state before step `j`, seen from the state after step `i`. */
  lemma Later(db: Db, steps: seq<Step>, i: nat, j: nat, item: Item)
    requires Inv(db) && i < j <= |steps| && Exists(Apply(Exec(db, steps[..i]), steps[i]), item)
    ensures var after := Apply(Exec(db, steps[..i]), steps[i]);
            var reached := Exec(db, steps[..j]);
            && Inv(Exec(db, steps[..i])) && Inv(after) && Inv(reached)
            && Exists(reached, item) && SameContent(after, reached, item)
            && var w, w' := WorkOf(after, item), WorkOf(reached, item);
               w.attempts <= w'.attempts && forall n :: Over(w, n) ==> Over(w', n)
  {
    hide Inv, Apply, Exists, SameContent, Over;
    ExecKeepsInv(db, steps[..i]);
    ApplyKeepsInv(Exec(db, steps[..i]), steps[i]);
    ExecSplit(db, steps, i, j);
    RunItem(Apply(Exec(db, steps[..i]), steps[i]), steps[i + 1..j], item);
  }

  /** No generation is handed out twice: later claims of an item carry a larger generation. */
  lemma ClaimedOnce(db: Db, steps: seq<Step>, i: nat, j: nat, item: Item)
    requires Inv(db) && i < j < |steps|
    requires Claims(Exec(db, steps[..i]), steps[i], item) && Claims(Exec(db, steps[..j]), steps[j], item)
    ensures TicketOf(Exec(db, steps[..i]), steps[i], item).attempts
          < TicketOf(Exec(db, steps[..j]), steps[j], item).attempts
  {
    hide Inv, Apply, Claims, TicketOf, Exec;
    ExecKeepsInv(db, steps[..i]);
    ClaimFacts(Exec(db, steps[..i]), steps[i], item);
    Later(db, steps, i, j, item);
    ClaimFacts(Exec(db, steps[..j]), steps[j], item);
  }

  lemma ReportEndsGeneration(db: Db, step: Step, item: Item)
    requires Reports(db, step, item)
    ensures Exists(Apply(db, step), item) && Over(WorkOf(Apply(db, step), item), step.attempts)
    ensures Exists(db, item) && !Over(WorkOf(db, item), step.attempts)
  {
  }

  /** No generation is reported twice. */
  lemma ReportedOnce(db: Db, steps: seq<Step>, i: nat, j: nat, item: Item)
    requires Inv(db) && i < j < |steps|
    requires Reports(Exec(db, steps[..i]), steps[i], item) && Reports(Exec(db, steps[..j]), steps[j], item)
    ensures steps[i].attempts != steps[j].attempts
  {
    hide Inv, Apply, Over, Exec;
    ReportEndsGeneration(Exec(db, steps[..i]), steps[i], item);
    Later(db, steps, i, j, item);
    ReportEndsGeneration(Exec(db, steps[..j]), steps[j], item);
  }

  /** Once the item was claimed again, the report of the earlier claim fails and changes nothing. */
  lemma OvertakenReportChangesNothing(db: Db, steps: seq<Step>, i: nat, k: nat, j: nat, item: Item, verdict: Verdict,
                                      next: int)
    requires Inv(db) && i < k < j <= |steps|
    requires Claims(Exec(db, steps[..i]), steps[i], item) && Claims(Exec(db, steps[..k]), steps[k], item)
    ensures var held := TicketOf(Exec(db, steps[..i]), steps[i], item).attempts;
            var reached := Exec(db, steps[..j]);
            && Finish(reached, item, held, verdict, next) == Err(LeaseLost)
            && Apply(reached, StepFinish(item, held, verdict, next)) == reached
  {
    hide Inv, Claims, TicketOf, Exec;
    ExecKeepsInv(db, steps[..k]);
    ClaimedOnce(db, steps, i, k, item);
    ClaimFacts(Exec(db, steps[..k]), steps[k], item);
    Later(db, steps, k, j, item);
  }

  // ----- Leases exclude each other -------------------------------------------

  /** No step of the run, started in `db`, reports on the item. */
  ghost predicate NoReport(db: Db, steps: seq<Step>, item: Item)
    decreases |steps|
  {
    steps == [] || (!Reports(db, steps[0], item) && NoReport(Apply(db, steps[0]), steps[1..], item))
  }

  predicate Leased(w: Work, until: int) { w.status.Sending? && w.leaseUntil.Some? && w.leaseUntil.value >= until }

  lemma {:induction false} LeaseHolds(db: Db, steps: seq<Step>, item: Item, until: int)
    requires Inv(db) && Exists(db, item) && Leased(WorkOf(db, item), until) && NoReport(db, steps, item)
    ensures Exists(Exec(db, steps), item) && Leased(WorkOf(Exec(db, steps), item), until)
    decreases |steps|
  {
    hide Inv, Apply, Claims, Reports, Retries;
    if steps != [] {
      StepItem(db, steps[0], item);
      ApplyKeepsInv(db, steps[0]);
      LeaseHolds(Apply(db, steps[0]), steps[1..], item, until);
    }
  }

  /** Until its worker reports, an item is not handed out again before the lease of 60 seconds has passed. */
  lemma LeaseExclusive(db: Db, steps: seq<Step>, i: nat, j: nat, item: Item)
    requires Inv(db) && i < j < |steps|
    requires Claims(Exec(db, steps[..i]), steps[i], item) && Claims(Exec(db, steps[..j]), steps[j], item)
    requires NoReport(Apply(Exec(db, steps[..i]), steps[i]), steps[i + 1..j], item)
    ensures steps[j].now >= steps[i].now + 60
  {
    hide Inv, Apply, Claims, NoReport, Exec;
    ExecKeepsInv(db, steps[..i]);
    ExecKeepsInv(db, steps[..j]);
    ApplyKeepsInv(Exec(db, steps[..i]), steps[i]);
    ClaimHere(Exec(db, steps[..i]), steps[i], item);
    ExecSplit(db, steps, i, j);
    LeaseHolds(Apply(Exec(db, steps[..i]), steps[i]), steps[i + 1..j], item, steps[i].now + LEASE);
    ClaimHere(Exec(db, steps[..j]), steps[j], item);
  }

  // ----- Waiting -------------------------------------------------------------

  ghost predicate NoClaim(db: Db, steps: seq<Step>, item: Item) { CountClaims(db, steps, item) == 0 }

  /** An item that waits for its next attempt waits until a claim. */
  lemma {:induction false} WaitHolds(db: Db, steps: seq<Step>, item: Item)
    requires Inv(db) && Exists(db, item) && WorkOf(db, item).status.Pending? && NoClaim(db, steps, item)
    ensures Exists(Exec(db, steps), item) && WorkOf(Exec(db, steps), item) == WorkOf(db, item)
    decreases |steps|
  {
    hide Inv, Apply, Claims, Reports, Retries;
    if steps != [] {
      StepItem(db, steps[0], item);
      ApplyKeepsInv(db, steps[0]);
      WaitHolds(Apply(db, steps[0]), steps[1..], item);
    }
  }

  /** After a postponed attempt the item is not handed out again before the time set in the report. */
  lemma BackOffHolds(db: Db, steps: seq<Step>, i: nat, j: nat, item: Item)
    requires Inv(db) && i < j < |steps|
    requires Reports(Exec(db, steps[..i]), steps[i], item) && steps[i].verdict.Postpone?
    requires Claims(Exec(db, steps[..j]), steps[j], item)
    requires NoClaim(Apply(Exec(db, steps[..i]), steps[i]), steps[i + 1..j], item)
    ensures steps[j].now >= steps[i].next
  {
    hide Inv, Claims, Exec, NoClaim;
    var before := Exec(db, steps[..i]);
    var after := Apply(before, steps[i]);
    ExecKeepsInv(db, steps[..i]);
    ApplyKeepsInv(before, steps[i]);
    assert Exists(after, item) && WorkOf(after, item) == Settle(WorkOf(before, item), Postpone, steps[i].next);
    hide Apply;
    ExecSplit(db, steps, i, j);
    WaitHolds(after, steps[i + 1..j], item);
    ClaimHere(Exec(db, steps[..j]), steps[j], item);
  }

  ghost predicate NoRetry(db: Db, steps: seq<Step>, item: Item)
    decreases |steps|
  {
    steps == [] || (!Retries(db, steps[0], item) && NoRetry(Apply(db, steps[0]), steps[1..], item))
  }

  /** A refused item rests until an administrator retries it, and is then claimable at once if its route is enabled. */
  lemma {:induction false} FailedUntilRetried(db: Db, steps: seq<Step>, item: Item)
    requires Inv(db) && Exists(db, item) && WorkOf(db, item).status.Failed? && NoRetry(db, steps, item)
    ensures Exists(Exec(db, steps), item) && WorkOf(Exec(db, steps), item) == WorkOf(db, item)
    decreases |steps|
  {
    hide Inv, Apply, Claims, Reports, Retries;
    if steps != [] {
      StepItem(db, steps[0], item);
      ApplyKeepsInv(db, steps[0]);
      FailedUntilRetried(Apply(db, steps[0]), steps[1..], item);
    }
  }

  lemma RetriedIsClaimable(db: Db, item: Item, now: int)
    requires Inv(db) && Retry(db, item, now).Ok?
    ensures Claimable(Retry(db, item, now).value, item, now) <==>
              match item
              case EventItem(d) => RouteEnabled(db, db.deliveries[d].terminal)
              case PictureItem(a) =>
                var d := db.attachments[a].parent;
                d in db.deliveries && RouteEnabled(db, db.deliveries[d].terminal)
  {
    hide Spent, MakePicture, Unique;
    InvParts(db, item.id);
  }

  // ----- Routes --------------------------------------------------------------

  /** Unfinished work is never orphaned. */
  lemma NoOrphans(db: Db, steps: seq<Step>)
    requires Initial(db)
    ensures var reached := Exec(db, steps);
            && (forall d :: d in reached.deliveries && !reached.deliveries[d].work.status.Delivered? ==>
                  reached.deliveries[d].terminal in reached.routes)
            && (forall a :: a in reached.attachments && !reached.attachments[a].work.status.Delivered? ==>
                  && reached.attachments[a].parent in reached.deliveries
                  && reached.deliveries[reached.attachments[a].parent].terminal in reached.routes)
  {
    hide Exec, Initial, Spent, MakePicture, Unique, OriginOk;
    ReachableInv(db, steps);
    var reached := Exec(db, steps);
    forall d | d in reached.deliveries ensures DeliveryOk(reached, d) { InvParts(reached, d); }
    forall a | a in reached.attachments ensures AttachmentOk(reached, a) { InvParts(reached, a); }
  }

  // ----- Pictures ------------------------------------------------------------

  /** The picture of a delivery names its event and terminal; a live event's is read out of the archived payload. */
  predicate Pictures(p: Picture, d: Delivery, events: map<nat, DeviceEvent>) {
    && p.source == d.body.source && p.eventId == d.body.eventId && p.terminal == d.body.terminal
    && match d.body.source
       case PushSDK => d.origin.Live? && d.origin.event in events && p.taken == Some(events[d.origin.event].payload)
       case ISAPI => p.taken.None?
  }

  lemma MadePicture(db: Db, d: Delivery)
    requires MakePicture(db, d).Some?
    ensures Pictures(MakePicture(db, d).value, d, db.events)
  {
  }

  /** A picture that was ever handed out belongs to a delivered event, shows it, and is that event's only one. */
  lemma PicturesFollowEvents(db: Db, steps: seq<Step>, a: nat)
    requires Initial(db) && a in Exec(db, steps).attachments
    ensures var reached := Exec(db, steps);
            var attachment := reached.attachments[a];
            && attachment.parent in reached.deliveries
            && (attachment.work.attempts > 0 <==> attachment.body.Some?)
            && (attachment.work.attempts > 0 ==>
                  && reached.deliveries[attachment.parent].work.status.Delivered?
                  && Pictures(attachment.body.value, reached.deliveries[attachment.parent], reached.events))
            && forall b :: b in reached.attachments && reached.attachments[b].parent == attachment.parent ==> b == a
  {
    hide Exec, Initial, Spent, MakePicture, OriginOk;
    ReachableInv(db, steps);
    var reached := Exec(db, steps);
    InvParts(reached, a);
    if reached.attachments[a].body.Some? {
      MadePicture(reached, reached.deliveries[reached.attachments[a].parent]);
    }
  }

  lemma TicketContent(db: Db, step: Step, item: Item)
    requires Inv(db) && Claims(db, step, item)
    ensures var after, ticket := Apply(db, step), TicketOf(db, step, item);
            && Exists(after, item)
            && match item
               case EventItem(d) =>
                 ticket.endpoint == after.deliveries[d].endpoint && ticket.key == after.deliveries[d].key
                 && ticket.body == EventBody(after.deliveries[d].body)
               case PictureItem(a) =>
                 var parent := after.attachments[a].parent;
                 && parent in after.deliveries && after.deliveries[parent].work.status.Delivered?
                 && ticket.endpoint == after.deliveries[parent].endpoint && ticket.key == after.deliveries[parent].key
                 && after.attachments[a].body.Some? && ticket.body == PictureBody(after.attachments[a].body.value)
  {
    hide Inv, ClaimNext, Claims, Apply, MakePicture;
    ClaimedItem(db, step, item);
  }

  /** A claim takes the lowest due item of a terminal whose route is enabled; a paused route sends nothing. */
  lemma ClaimsRespectRoutes(db: Db, step: Step, item: Item)
    requires Inv(db) && Claims(db, step, item)
    ensures RouteEnabled(db, TicketOf(db, step, item).terminal)
    ensures forall id :: id !in step.locked && Claimable(db, ItemOf(step.queue, id), step.now) ==> item.id <= id
  {
    hide Inv, ClaimNext, Claims, MakePicture;
    ClaimedItem(db, step, item);
    forall id | id !in step.locked && Claimable(db, ItemOf(step.queue, id), step.now) ensures item.id <= id {
      assert id in Candidates(db, step.queue, step.locked, step.now);
    }
  }

  /** Every claim of an item hands out the same body for the same destination. */
  lemma ClaimsAgree(db: Db, steps: seq<Step>, i: nat, j: nat, item: Item)
    requires Inv(db) && i < j < |steps|
    requires Claims(Exec(db, steps[..i]), steps[i], item) && Claims(Exec(db, steps[..j]), steps[j], item)
    ensures var first := TicketOf(Exec(db, steps[..i]), steps[i], item);
            var second := TicketOf(Exec(db, steps[..j]), steps[j], item);
            first.endpoint == second.endpoint && first.key == second.key && first.body == second.body
  {
    hide Inv, Apply, Claims, TicketOf, Exec;
    ExecKeepsInv(db, steps[..i]);
    TicketContent(Exec(db, steps[..i]), steps[i], item);
    Later(db, steps, i, j, item);
    var after := Apply(Exec(db, steps[..i]), steps[i]);
    var before := Exec(db, steps[..j]);
    if item.PictureItem? {
      ExecSplit(db, steps, i, j);
      RunItem(after, steps[i + 1..j], EventItem(after.attachments[item.id].parent));
    }
    TicketContent(before, steps[j], item);
    StepItem(before, steps[j], item);
    if item.PictureItem? {
      StepItem(before, steps[j], EventItem(before.attachments[item.id].parent));
    }
  }

  lemma PictureClaimLeavesEvents(db: Db, a: nat, now: int)
    requires Claimable(db, PictureItem(a), now) && ClaimItem(db, PictureItem(a), now).Ok?
    ensures ClaimItem(db, PictureItem(a), now).value.db.deliveries == db.deliveries
  {
    hide MakePicture;
  }

  lemma PictureWorkLeavesEvents(db: Db, a: nat, w: Work)
    requires Exists(db, PictureItem(a))
    ensures SetWork(db, PictureItem(a), w).deliveries == db.deliveries
  {
  }

  /** What happens to pictures never touches an attendance delivery. */
  lemma PicturesLeaveEventsAlone(db: Db, step: Step)
    requires Inv(db)
    requires || (step.StepClaim? && step.queue.Pictures?) || step.StepPictures?
             || (step.StepFinish? && step.item.PictureItem?) || (step.StepRetry? && step.item.PictureItem?)
    ensures Apply(db, step).deliveries == db.deliveries
  {
    hide Inv, ClaimNext, ClaimItem, Claimable, QueuePictures, SetWork;
    match step
    case StepClaim(queue, locked, now) =>
      var claim := ClaimNext(db, queue, locked, now);
      if claim.Ok? && claim.value.Some? {
        ClaimedItem(db, step, claim.value.value.ticket.item);
        PictureClaimLeavesEvents(db, claim.value.value.ticket.item.id, now);
      }
    case StepPictures(t, asked, pictures, now) =>
      InvFresh(db);
      if QueuePictures(db, t, asked, pictures, now).Ok? {
        PicturesAdd(db, t, asked, pictures, now);
      }
    case StepFinish(item, attempts, verdict, next) =>
      if Exists(db, item) {
        PictureWorkLeavesEvents(db, item.id, Settle(WorkOf(db, item), verdict, next));
      }
    case StepRetry(item, now) =>
      if Exists(db, item) {
        PictureWorkLeavesEvents(db, item.id, Revive(WorkOf(db, item), now));
      }
  }
}
