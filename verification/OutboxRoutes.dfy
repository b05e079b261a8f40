/**
 Where deliveries go when routes are edited, and pictures for deliveries that are
 older than the table of pictures.
 */
module OutboxRoutes {
  import opened Wrappers
  import opened Ordering
  import opened Terminals
  import opened Messages
  import opened OutboxModel
  import opened OutboxInvariant
  import opened OutboxTheorems
  import opened OutboxHistory
  import Backfill

  // ----- Attendance deliveries with a picture follow their route -------------

  /** Until it is delivered, failed or not, the delivery goes where its terminal's route points. */
  predicate Tracked(db: Db, d: nat)
    requires d in db.deliveries
  {
    var delivery := db.deliveries[d];
    delivery.work.status.Delivered? || PointsAt(db, delivery.terminal, delivery.endpoint, delivery.key)
  }

  /** The picture of an undelivered event is waiting, so the route can neither change nor go. */
  lemma PicturedIsTracked(db: Db, d: nat)
    requires Inv(db) && d in db.deliveries && HasPicture(db, d)
    ensures Tracked(db, d)
  {
    hide Spent, MakePicture, Unique, OriginOk;
    var a :| a in db.attachments && db.attachments[a].parent == d;
    InvParts(db, a);
  }

  /** Every delivery that is new in `db'` has a picture. */
  ghost predicate NewPictured(db: Db, db': Db) {
    forall d :: d in db'.deliveries && d !in db.deliveries ==> HasPicture(db', d)
  }

  lemma PictureStays(db: Db, db': Db, d: nat)
    requires QueuesGrow(db, db') && HasPicture(db, d)
    ensures HasPicture(db', d)
  {
    var a :| a in db.attachments && db.attachments[a].parent == d;
    assert a in db'.attachments && db'.attachments[a].parent == d;
  }

  lemma NewPicturedTransitive(a: Db, b: Db, c: Db)
    requires NewPictured(a, b) && NewPictured(b, c) && QueuesGrow(b, c)
    ensures NewPictured(a, c)
  {
    hide HasPicture;
    forall d | d in c.deliveries && d !in a.deliveries ensures HasPicture(c, d) {
      if d in b.deliveries {
        PictureStays(b, c, d);
      }
    }
  }

  lemma AddDeliveryPictured(db: Db, origin: Origin, batch: Option<nat>, terminal: Serial, route: Route, body: Message,
                            now: int)
    ensures NewPictured(db, AddDelivery(db, origin, batch, terminal, route, body, now))
  {
    var db' := AddDelivery(db, origin, batch, terminal, route, body, now);
    assert db'.attachments[db.nextId + 1].parent == db.nextId;
  }

  lemma {:induction false} IngestPictured(db: Db, batch: seq<DeviceEvent>, now: int)
    requires FreshIds(db) && Ingest(db, batch, now).Ok?
    ensures NewPictured(db, Ingest(db, batch, now).value)
    decreases |batch|
  {
    hide Archived, HasPicture, FreshIds, ArchiveStays, QueuesGrow;
    if batch != [] {
      var e, next := batch[0], InsertEvent(db, batch[0], now).value;
      var added := db.(events := db.events[db.nextId := e], nextId := db.nextId + 1);
      if Qualifies(e) && RouteEnabled(db, e.terminal) {
        AddDeliveryPictured(added, Live(db.nextId), None, e.terminal, db.routes[e.terminal], LiveMessage(e), now);
      }
      InsertEventAdds(db, e, now);
      IngestAdds(next, batch[1..], now);
      IngestPictured(next, batch[1..], now);
      NewPicturedTransitive(db, next, Ingest(db, batch, now).value);
    }
  }

  lemma {:induction false} AddAllPictured(db: Db, batch: nat, terminal: Serial, route: Route,
                                          candidates: seq<Backfill.Candidate>, now: int)
    requires FreshIds(db)
    ensures NewPictured(db, AddAll(db, batch, terminal, route, candidates, now))
    decreases |candidates|
  {
    hide HasPicture, FreshIds, ArchiveStays, QueuesGrow;
    if candidates != [] {
      var c := candidates[0];
      var next := AddDelivery(db, OriginOf(c), Some(batch), terminal, route, c.body, now);
      AddDeliveryPictured(db, OriginOf(c), Some(batch), terminal, route, c.body, now);
      AddDeliveryAdds(db, OriginOf(c), Some(batch), terminal, route, c.body, now);
      AddAllAdds(next, batch, terminal, route, candidates[1..], now);
      AddAllPictured(next, batch, terminal, route, candidates[1..], now);
      NewPicturedTransitive(db, next, AddAll(db, batch, terminal, route, candidates, now));
    }
  }

  /** Whatever is queued is queued with its picture. */
  lemma StepPictured(db: Db, step: Step)
    requires Inv(db)
    ensures NewPictured(db, Apply(db, step))
  {
    hide Inv, Ingest, QueueBackfill, HasPicture, FreshIds;
    InvFresh(db);
    if step.StepIngest? {
      if Ingest(db, step.events, step.now).Ok? {
        IngestPictured(db, step.events, step.now);
      }
    } else if step.StepBackfill? {
      if QueueBackfill(db, step.terminal, step.from, step.until, step.token, step.now).Ok? {
        AcceptedPreview(db, step.terminal, step.from, step.until, step.token, step.now);
        BeginIsFresh(db, Batch(step.terminal, step.token));
        var begun := db.(batches := db.batches[db.nextId := Batch(step.terminal, step.token)], nextId := db.nextId + 1);
        AddAllPictured(begun, db.nextId, step.terminal, step.token.route, step.token.candidates, step.now);
      }
    } else {
      hide Apply;
      if Quiet(step) {
        QuietTables(db, step);
      } else {
        ArchiveStepTables(db, step);
      }
    }
  }

  lemma ArchiveStepTables(db: Db, step: Step)
    requires step.StepImport? || step.StepReproject?
    ensures Apply(db, step).deliveries == db.deliveries
  {
  }

  lemma {:induction false} RunPictured(db: Db, steps: seq<Step>, d: nat)
    requires Inv(db) && d in Exec(db, steps).deliveries && (d in db.deliveries ==> HasPicture(db, d))
    ensures HasPicture(Exec(db, steps), d)
    decreases |steps|
  {
    hide Inv, Apply, HasPicture, NewPictured;
    if steps != [] {
      var next := Apply(db, steps[0]);
      ApplyKeepsInv(db, steps[0]);
      if d in next.deliveries && d !in db.deliveries {
        assert HasPicture(next, d) by { NewIsPictured(db, steps[0], d); }
      } else if d in db.deliveries {
        RunQueued(db, [steps[0]]);
        assert Exec(db, [steps[0]]) == next by { OneStep(db, steps[0]); }
      }
      RunPictured(next, steps[1..], d);
    }
  }

  lemma NewIsPictured(db: Db, step: Step, d: nat)
    requires Inv(db) && d in Apply(db, step).deliveries && d !in db.deliveries
    ensures HasPicture(Apply(db, step), d)
  {
    hide Inv, Apply, HasPicture;
    StepPictured(db, step);
  }

  lemma OneStep(db: Db, step: Step)
    ensures Exec(db, [step]) == Apply(db, step)
  {
    hide Apply;
    assert [step][1..] == [];
    assert Exec(Apply(db, step), []) == Apply(db, step);
  }

  /**
   From any consistent database: an attendance delivery that has a picture, or was queued since, goes where its
   terminal's route points until it is delivered, through every edit of the route, every failure and every retry.
   */
  lemma TrackedForever(db: Db, steps: seq<Step>, d: nat)
    requires Inv(db) && d in Exec(db, steps).deliveries && (d in db.deliveries ==> HasPicture(db, d))
    ensures Tracked(Exec(db, steps), d)
  {
    hide Inv, Exec, HasPicture;
    RunPictured(db, steps, d);
    ExecKeepsInv(db, steps);
    PicturedIsTracked(Exec(db, steps), d);
  }

  /** From an empty database there is no exception among attendance deliveries. */
  lemma TrackedAlways(steps: seq<Step>)
    ensures forall d :: d in Exec(EMPTY, steps).deliveries ==> Tracked(Exec(EMPTY, steps), d)
  {
    hide Exec, Inv, Tracked;
    EmptyInitial();
    forall d | d in Exec(EMPTY, steps).deliveries ensures Tracked(Exec(EMPTY, steps), d) {
      TrackedForever(EMPTY, steps, d);
    }
  }

  // ----- What is in flight, in both queues -----------------------------------

  /** The item's destination, for a picture that of its event, is where its terminal's route points now. */
  predicate OnRoute(db: Db, item: Item)
    requires Exists(db, item)
  {
    var d := match item case EventItem(d) => d case PictureItem(a) => db.attachments[a].parent;
    && d in db.deliveries
    && PointsAt(db, db.deliveries[d].terminal, db.deliveries[d].endpoint, db.deliveries[d].key)
  }

  /** If the item may be sent without anyone asking, it goes where the route points now. */
  predicate Aimed(db: Db, item: Item)
    requires Exists(db, item)
  {
    InFlight(WorkOf(db, item)) ==> OnRoute(db, item)
  }

  ghost predicate AllAimed(db: Db) {
    forall item {:trigger Exists(db, item)} :: Exists(db, item) ==> Aimed(db, item)
  }

  /** An item whose row, and whose event's row, stays the same is aimed as before. */
  lemma SameAim(db: Db, db': Db, item: Item)
    requires Exists(db, item) && Exists(db', item) && Aimed(db, item) && db'.routes == db.routes
    requires QueuesGrow(db, db')
    ensures Aimed(db', item)
  {
  }

  lemma AddDeliveryAimed(db: Db, origin: Origin, batch: Option<nat>, terminal: Serial, route: Route, body: Message,
                         now: int)
    requires FreshIds(db) && AllAimed(db) && terminal in db.routes && db.routes[terminal] == route
    ensures AllAimed(AddDelivery(db, origin, batch, terminal, route, body, now))
  {
    hide ArchiveStays;
    var db' := AddDelivery(db, origin, batch, terminal, route, body, now);
    AddDeliveryAdds(db, origin, batch, terminal, route, body, now);
    forall item | Exists(db', item) ensures Aimed(db', item) {
      if Exists(db, item) {
        SameAim(db, db', item);
      }
    }
  }

  /** A change of tables that are not queues or routes. */
  lemma AsideAimed(db: Db, db': Db)
    requires AllAimed(db) && db'.routes == db.routes
    requires db'.deliveries == db.deliveries && db'.attachments == db.attachments
    ensures AllAimed(db')
  {
    forall item | Exists(db', item) ensures Aimed(db', item) {
      assert Exists(db, item);
    }
  }

  lemma {:induction false} IngestAimed(db: Db, batch: seq<DeviceEvent>, now: int)
    requires FreshIds(db) && AllAimed(db) && Ingest(db, batch, now).Ok?
    ensures AllAimed(Ingest(db, batch, now).value)
    decreases |batch|
  {
    hide Archived, AllAimed, ArchiveStays, QueuesGrow;
    if batch != [] {
      var e, next := batch[0], InsertEvent(db, batch[0], now).value;
      var added := db.(events := db.events[db.nextId := e], nextId := db.nextId + 1);
      AsideAimed(db, added);
      if Qualifies(e) && RouteEnabled(db, e.terminal) {
        AddDeliveryAimed(added, Live(db.nextId), None, e.terminal, db.routes[e.terminal], LiveMessage(e), now);
      }
      InsertEventAdds(db, e, now);
      IngestAimed(next, batch[1..], now);
    }
  }

  lemma {:induction false} AddAllAimed(db: Db, batch: nat, terminal: Serial, route: Route,
                                       candidates: seq<Backfill.Candidate>, now: int)
    requires FreshIds(db) && AllAimed(db) && terminal in db.routes && db.routes[terminal] == route
    ensures AllAimed(AddAll(db, batch, terminal, route, candidates, now))
    decreases |candidates|
  {
    hide AllAimed, FreshIds, ArchiveStays, QueuesGrow;
    if candidates != [] {
      var c := candidates[0];
      var next := AddDelivery(db, OriginOf(c), Some(batch), terminal, route, c.body, now);
      AddDeliveryAimed(db, OriginOf(c), Some(batch), terminal, route, c.body, now);
      AddDeliveryAdds(db, OriginOf(c), Some(batch), terminal, route, c.body, now);
      AddAllAimed(next, batch, terminal, route, candidates[1..], now);
    }
  }

  /** What is in flight makes its terminal busy, so that the route neither changes nor goes. */
  lemma InFlightIsBusy(db: Db, item: Item)
    requires Exists(db, item) && InFlight(WorkOf(db, item)) && OnRoute(db, item)
    ensures exists d :: d in db.deliveries && Busy(db, d, db.deliveries[d].terminal)
                        && Open(db, d, db.deliveries[d].terminal)
                        && d == match item case EventItem(d) => d case PictureItem(a) => db.attachments[a].parent
  {
    match item
    case EventItem(d) => assert Busy(db, d, db.deliveries[d].terminal);
    case PictureItem(a) =>
      var d := db.attachments[a].parent;
      assert AttachmentBusy(db, a, d) && AttachmentOpen(db, a, d);
      assert Busy(db, d, db.deliveries[d].terminal);
  }

  lemma RoutesAimed(db: Db, routes: map<Serial, Route>)
    requires AllAimed(db)
    requires forall t, d :: Rerouted(db, routes, t) && d in db.deliveries ==> !Busy(db, d, t)
    ensures AllAimed(db.(routes := routes))
  {
    hide Busy, Open;
    var db' := db.(routes := routes);
    forall item | Exists(db', item) ensures Aimed(db', item) {
      assert Exists(db, item) && Aimed(db, item);
      if InFlight(WorkOf(db, item)) {
        InFlightIsBusy(db, item);
      }
    }
  }

  lemma RouteStepsAimed(db: Db, terminal: Serial, route: Route)
    requires AllAimed(db)
    ensures SaveRoute(db, terminal, route).Ok? ==> AllAimed(SaveRoute(db, terminal, route).value)
    ensures DeleteRoute(db, terminal).Ok? ==> AllAimed(DeleteRoute(db, terminal).value)
  {
    hide AllAimed, Busy, Open;
    if SaveRoute(db, terminal, route).Ok? {
      RoutesAimed(db, db.routes[terminal := route]);
    }
    if DeleteRoute(db, terminal).Ok? {
      forall d | d in db.deliveries ensures !Busy(db, d, terminal) {
        if Busy(db, d, terminal) {
          BusyIsOpen(db, d, terminal);
        }
      }
      RoutesAimed(db, db.routes - {terminal});
    }
  }

  // ----- Claims, reports and retries -----------------------------------------

  lemma QueueStepsKeepRows(db: Db, step: Step)
    requires OnQueues(step)
    ensures var db' := Apply(db, step);
            && db'.routes == db.routes && db'.deliveries.Keys == db.deliveries.Keys
            && db'.attachments.Keys == db.attachments.Keys
  {
    hide ClaimNext, ClaimItem, Claimable, SetWork;
    match step
    case StepClaim(queue, locked, now) =>
      var claim := ClaimNext(db, queue, locked, now);
      if claim.Ok? && claim.value.Some? {
        ClaimedItem(db, step, claim.value.value.ticket.item);
        ClaimTables(db, claim.value.value.ticket.item, now);
      }
    case StepFinish(item, attempts, verdict, next) =>
      if Exists(db, item) {
        SetWorkTables(db, item, Settle(WorkOf(db, item), verdict, next));
      }
    case StepRetry(item, now) =>
      if Exists(db, item) {
        SetWorkTables(db, item, Revive(WorkOf(db, item), now));
      }
  }

  /** A failed item whose terminal has another destination by now. */
  predicate Stray(db: Db, item: Item) {
    Exists(db, item) && WorkOf(db, item).status.Failed? && !OnRoute(db, item)
  }

  /** An attendance delivery is never a stray unless it is older than the table of pictures. */
  lemma StrayEventHasNoPicture(db: Db, d: nat)
    requires Inv(db) && Stray(db, EventItem(d))
    ensures !HasPicture(db, d)
  {
    hide Inv;
    if HasPicture(db, d) {
      PicturedIsTracked(db, d);
    }
  }

  lemma RouteOfItem(db: Db, step: Step, item: Item)
    requires Inv(db) && Exists(db, item) && OnQueues(step)
    ensures Exists(Apply(db, step), item) && (OnRoute(Apply(db, step), item) <==> OnRoute(db, item))
  {
    hide Inv, Apply, Claims, Reports, Retries, ArchiveStays;
    QueueStepsKeepRows(db, step);
    StepItem(db, step, item);
    if item.PictureItem? && db.attachments[item.id].parent in db.deliveries {
      StepItem(db, step, EventItem(db.attachments[item.id].parent));
    }
  }

  lemma QueueStepAimed(db: Db, step: Step, item: Item)
    requires Inv(db) && Exists(db, item) && Aimed(db, item) && OnQueues(step)
    ensures Exists(Apply(db, step), item)
    ensures Aimed(Apply(db, step), item) <==> !(step.StepRetry? && step.item == item && Stray(db, item))
  {
    hide Inv, Apply, Claims, OnRoute, ArchiveStays, SameContent;
    RouteOfItem(db, step, item);
    StepItem(db, step, item);
    OnlyClaimsClaim(db, step, item);
  }

  lemma QueueStepsAimed(db: Db, step: Step)
    requires Inv(db) && AllAimed(db) && OnQueues(step)
    ensures AllAimed(Apply(db, step)) <==> !(step.StepRetry? && Stray(db, step.item))
  {
    hide Inv, Apply, Aimed, OnRoute;
    QueueStepsKeepRows(db, step);
    var db' := Apply(db, step);
    forall item | Exists(db, item)
      ensures Exists(db', item)
      ensures Aimed(db', item) <==> !(step.StepRetry? && step.item == item && Stray(db, item))
    {
      QueueStepAimed(db, step, item);
    }
    forall item | Exists(db', item) ensures Exists(db, item) {
    }
  }

  // ----- Picture backfills over outdated destinations ------------------------

  /** A picture not tried yet, for one of the entries. */
  predicate IsFreshPicture(a: Attachment, entries: seq<PictureEntry>, now: int) {
    exists i :: 0 <= i < |entries| && a == Attachment(entries[i].delivery, None, NewWork(now))
  }

  lemma {:induction false} AddPicturesAreFresh(db: Db, entries: seq<PictureEntry>, now: int)
    requires FreshIds(db)
    ensures var after := AddPictures(db, entries, now);
            forall a :: a in after.attachments && a !in db.attachments ==>
              IsFreshPicture(after.attachments[a], entries, now)
    decreases |entries|
  {
    if entries != [] {
      var picture := Attachment(entries[0].delivery, None, NewWork(now));
      var next := db.(attachments := db.attachments[db.nextId := picture], nextId := db.nextId + 1);
      var after := AddPictures(db, entries, now);
      AddPicturesAdds(next, entries[1..], now);
      AddPicturesAreFresh(next, entries[1..], now);
      forall a | a in after.attachments && a !in db.attachments
        ensures IsFreshPicture(after.attachments[a], entries, now)
      {
        if a != db.nextId {
          assert IsFreshPicture(after.attachments[a], entries[1..], now);
          assert forall k :: 0 <= k < |entries[1..]| ==> entries[1..][k] == entries[k + 1];
        }
      }
    }
  }

  /** A delivered event without a picture, in the range of the token, whose destination is outdated. */
  predicate Outdated(db: Db, token: PictureToken, d: nat) {
    Pictureless(db, d, token.terminal, token.through) && !OnRoute(db, EventItem(d))
  }

  lemma EntriesArePictureless(db: Db, step: Step)
    requires AcceptsPictures(db, step)
    ensures forall i :: 0 <= i < |step.pictures.entries| ==>
              Pictureless(db, step.pictures.entries[i].delivery, step.pictures.terminal, step.pictures.through)
    ensures forall d :: Pictureless(db, d, step.pictures.terminal, step.pictures.through) ==>
              exists i :: 0 <= i < |step.pictures.entries| && step.pictures.entries[i].delivery == d
  {
    hide InOrder, Through, AddPictures, HasPicture;
    var token := step.pictures;
    var ids := InOrder(PicturelessIds(db, token.terminal, token.through));
    assert |token.entries| == |ids|;
    forall i | 0 <= i < |ids|
      ensures token.entries[i].delivery == ids[i] && Pictureless(db, ids[i], token.terminal, token.through)
    {
      assert ids[i] in ids;
    }
    forall d | Pictureless(db, d, token.terminal, token.through)
      ensures exists i :: 0 <= i < |token.entries| && token.entries[i].delivery == d
    {
      assert d in ids;
      var i :| 0 <= i < |ids| && ids[i] == d;
      assert token.entries[i].delivery == d;
    }
  }

  lemma PicturesAimed(db: Db, step: Step)
    requires Inv(db) && AllAimed(db) && AcceptsPictures(db, step)
    ensures AllAimed(Apply(db, step)) <==> !exists d :: Outdated(db, step.pictures, d)
  {
    hide Inv, HasPicture, AddPictures, IsPicturePreview, Through, ArchiveStays, FreshIds;
    InvFresh(db);
    PicturesAdd(db, step.terminal, step.asked, step.pictures, step.now);
    PicturesTables(db, step);
    EntriesArePictureless(db, step);
    var entries, db' := step.pictures.entries, Apply(db, step);
    assert db' == AddPictures(db, entries, step.now);
    AddPicturesAreFresh(db, entries, step.now);
    forall item | Exists(db, item) ensures Exists(db', item) && Aimed(db', item) {
      SameAim(db, db', item);
    }
    if exists d :: Outdated(db, step.pictures, d) {
      var d :| Outdated(db, step.pictures, d);
      var i :| 0 <= i < |entries| && entries[i].delivery == d;
      NewPicture(db, db', d);
      var a :| a in db'.attachments && a !in db.attachments && db'.attachments[a].parent == d;
      assert Exists(db', PictureItem(a)) && !Aimed(db', PictureItem(a));
    } else {
      forall item | Exists(db', item) ensures Aimed(db', item) {
        if !Exists(db, item) {
          var picture := db'.attachments[item.id];
          assert IsFreshPicture(picture, entries, step.now);
          assert !Outdated(db, step.pictures, picture.parent);
        }
      }
    }
  }

  lemma NewPicture(db: Db, db': Db, d: nat)
    requires !HasPicture(db, d) && HasPicture(db', d) && QueuesGrow(db, db')
    ensures exists a :: a in db'.attachments && a !in db.attachments && db'.attachments[a].parent == d
  {
    var a :| a in db'.attachments && db'.attachments[a].parent == d;
    assert a !in db.attachments;
  }

  // ----- The law -------------------------------------------------------------

  /**
   The steps that put something in flight for an earlier destination: retrying a failed delivery or picture whose
   destination is outdated, and a picture backfill that covers a delivered event with an outdated destination.
   */
  ghost predicate LeadsAstray(db: Db, step: Step) {
    || (step.StepRetry? && Stray(db, step.item))
    || (AcceptsPictures(db, step) && exists d :: Outdated(db, step.pictures, d))
  }

  lemma OtherStepAimed(db: Db, step: Step)
    requires Inv(db) && AllAimed(db) && !OnQueues(step) && !step.StepPictures?
    ensures AllAimed(Apply(db, step))
  {
    hide Inv, AllAimed, Ingest, SaveRoute, DeleteRoute, QueueBackfill, FreshIds;
    InvFresh(db);
    match step
    case StepIngest(events, now) =>
      if Ingest(db, events, now).Ok? {
        IngestAimed(db, events, now);
      }
    case StepSaveRoute(t, route) => RouteStepsAimed(db, t, route);
    case StepDeleteRoute(t) => RouteStepsAimed(db, t, Route("", "", false));
    case StepBackfill(t, from, until, token, now) =>
      if QueueBackfill(db, t, from, until, token, now).Ok? {
        AcceptedPreview(db, t, from, until, token, now);
        BeginIsFresh(db, Batch(t, token));
        var begun := db.(batches := db.batches[db.nextId := Batch(t, token)], nextId := db.nextId + 1);
        AsideAimed(db, begun);
        AddAllAimed(begun, db.nextId, t, token.route, token.candidates, now);
      }
    case _ => AsideAimed(db, Apply(db, step));
  }

  /** Everything in flight in both queues stays aimed exactly if the step leads nothing astray. */
  lemma StepAimed(db: Db, step: Step)
    requires Inv(db) && AllAimed(db)
    ensures AllAimed(Apply(db, step)) <==> !LeadsAstray(db, step)
  {
    hide Inv, AllAimed, QueuePictures, Stray, Outdated;
    if OnQueues(step) {
      QueueStepsAimed(db, step);
    } else if AcceptsPictures(db, step) {
      PicturesAimed(db, step);
    } else if step.StepPictures? {
      assert Apply(db, step) == db;
    } else {
      hide Apply;
      OtherStepAimed(db, step);
    }
  }

  ghost predicate AimedThroughout(db: Db, steps: seq<Step>)
    decreases |steps|
  {
    AllAimed(db) && (steps != [] ==> AimedThroughout(Apply(db, steps[0]), steps[1..]))
  }

  ghost predicate NothingLedAstray(db: Db, steps: seq<Step>)
    decreases |steps|
  {
    steps != [] ==> !LeadsAstray(db, steps[0]) && NothingLedAstray(Apply(db, steps[0]), steps[1..])
  }

  /** Throughout a history everything in flight goes where the route points, exactly if no step of it leads astray. */
  lemma {:induction false} AimedExactly(db: Db, steps: seq<Step>)
    requires Inv(db) && AllAimed(db)
    ensures AimedThroughout(db, steps) <==> NothingLedAstray(db, steps)
    decreases |steps|
  {
    hide Inv, Apply, AllAimed, LeadsAstray;
    if steps != [] {
      StepAimed(db, steps[0]);
      ApplyKeepsInv(db, steps[0]);
      if !LeadsAstray(db, steps[0]) {
        AimedExactly(Apply(db, steps[0]), steps[1..]);
      }
    }
  }

  // ----- An example of each kind ---------------------------------------------

  const BEFORE: Route := Route("https://school.example/a", "key", true)
  const AFTER: Route := Route("https://school.example/b", "key", true)
  const EVENT: DeviceEvent := DeviceEvent("T", "E", Payload("noData", ""), Unclassified)
  const BODY: Message := Message(PushSDK, "E", "T", None, Scan(None, None, None, None))

  /** One delivery of the version before pictures, attempted once. */
  function Inherited(status: Status): Db {
    Db({"T"}, map[1 := EVENT], map[], map["T" := BEFORE],
       map[2 := Delivery(Live(1), None, "T", BEFORE.endpoint, BEFORE.key, BODY,
                         Work(status, 1, 0, None))], map[], map[], 3)
  }

  lemma InheritedIsInitial(status: Status)
    requires status.Delivered? || status.Failed?
    ensures Initial(Inherited(status))
  {
    var db := Inherited(status);
    assert UniqueEvents(db);
    assert DeliveryOk(db, 2);
  }

  /** A failed delivery without a picture does not keep its route; retried, it goes to the earlier destination. */
  lemma StrayExample()
    ensures var db := Inherited(Failed);
            var rerouted := Apply(db, StepSaveRoute("T", AFTER));
            && Initial(db) && AllAimed(db) && rerouted.routes["T"] == AFTER && Stray(rerouted, EventItem(2))
            && !AllAimed(Apply(rerouted, StepRetry(EventItem(2), 9)))
  {
    hide Initial;
    InheritedIsInitial(Failed);
    var db := Inherited(Failed);
    assert !Busy(db, 2, "T");
    assert SaveRoute(db, "T", AFTER) == Ok(db.(routes := db.routes["T" := AFTER]));
    var rerouted := Apply(db, StepSaveRoute("T", AFTER));
    RoutesDiffer();
    var retried := Apply(rerouted, StepRetry(EventItem(2), 9));
    assert retried.deliveries[2].work == Revive(db.deliveries[2].work, 9);
    assert Exists(retried, EventItem(2)) && !Aimed(retried, EventItem(2));
  }

  lemma RoutesDiffer()
    ensures BEFORE.endpoint != AFTER.endpoint
  {
    assert BEFORE.endpoint[|BEFORE.endpoint| - 1] == 'a' && AFTER.endpoint[|AFTER.endpoint| - 1] == 'b';
  }

  /** A delivered event without a picture keeps no route either; its picture goes to the earlier destination. */
  lemma OutdatedBackfillExample()
    ensures var db := Inherited(Delivered);
            var rerouted := Apply(db, StepSaveRoute("T", AFTER));
            var token := PictureToken("T", 2, [PictureEntry(2, BEFORE.endpoint, BEFORE.key)]);
            && Initial(db) && AllAimed(db) && Outdated(rerouted, token, 2)
            && AcceptsPictures(rerouted, StepPictures("T", 2, token, 9))
            && !AllAimed(Apply(rerouted, StepPictures("T", 2, token, 9)))
  {
    hide Initial, InOrder;
    InheritedIsInitial(Delivered);
    var db := Inherited(Delivered);
    assert !Busy(db, 2, "T");
    assert SaveRoute(db, "T", AFTER) == Ok(db.(routes := db.routes["T" := AFTER]));
    var rerouted := Apply(db, StepSaveRoute("T", AFTER));
    var token := PictureToken("T", 2, [PictureEntry(2, BEFORE.endpoint, BEFORE.key)]);
    RoutesDiffer();
    OneIsAccepted(rerouted, token, 9);
    var after := Apply(rerouted, StepPictures("T", 2, token, 9));
    assert after.attachments[3] == Attachment(2, None, NewWork(9));
    assert Exists(after, PictureItem(3)) && !Aimed(after, PictureItem(3));
  }

  lemma OneIsAccepted(db: Db, token: PictureToken, now: int)
    requires db.deliveries == Inherited(Delivered).deliveries && db.attachments == map[] && db.nextId == 3
    requires "T" in db.terminals && RouteEnabled(db, "T")
    requires token == PictureToken("T", 2, [PictureEntry(2, BEFORE.endpoint, BEFORE.key)])
    ensures QueuePictures(db, "T", 2, token, now)
         == Ok(db.(attachments := map[3 := Attachment(2, None, NewWork(now))], nextId := 4))
  {
    hide InOrder;
    assert Pictureless(db, 2, "T", 2);
    assert PicturelessIds(db, "T", 2) == {2};
    InOrderOne(2);
    OneBound(db, "T", 2, 2);
    assert IsPicturePreview(db, token, "T", 2);
    var added := db.(attachments := db.attachments[3 := Attachment(2, None, NewWork(now))], nextId := 4);
    assert token.entries[1..] == [] && AddPictures(db, token.entries, now) == AddPictures(added, [], now);
  }

  // ----- A history from an empty database ------------------------------------

  const SCAN: DeviceEvent :=
    DeviceEvent("T", "E", Payload("noData", ""), Classified(5, 75, Some("active"), Scan(None, None, None, None)))

  const FRESH: Work := NewWork(0)
  const DONE: Work := Work(Delivered, 1, 0, None)
  const HELD: Work := Work(Sending, 1, 0, Some(60))
  const REFUSED: Work := Work(Failed, 1, 0, None)
  const PICTURE: Picture := Picture(PushSDK, "E", "T", Some(Payload("noData", "")))

  /** One event, its delivery and its picture. */
  function Scanned(route: Route, event: Work, body: Option<Picture>, picture: Work): Db {
    Db({"T"}, map[1 := SCAN], map[], map["T" := route],
       map[2 := ScanDelivery(event)], map[3 := Attachment(2, body, picture)], map[], 4)
  }

  function ScanDelivery(work: Work): Delivery {
    Delivery(Live(1), None, "T", BEFORE.endpoint, BEFORE.key, LiveMessage(SCAN), work)
  }

  /** The event is delivered, its picture refused, the route changed, and the picture retried. */
  const HISTORY: seq<Step> :=
    [StepTerminal("T"), StepSaveRoute("T", BEFORE), StepIngest([SCAN], 0),
     StepClaim(Events, {}, 0), StepFinish(EventItem(2), 1, Accept, 0),
     StepClaim(Pictures, {}, 0), StepFinish(PictureItem(3), 1, Reject, 0),
     StepSaveRoute("T", AFTER), StepRetry(PictureItem(3), 9)]

  lemma ClaimOnly(db: Db, queue: Queue, id: nat, now: int)
    requires Candidates(db, queue, {}, now) == {id} && ClaimItem(db, ItemOf(queue, id), now).Ok?
    ensures var claim := ClaimItem(db, ItemOf(queue, id), now).value;
            && Apply(db, StepClaim(queue, {}, now)) == claim.db
            && (claim.ticket.item == ItemOf(queue, id) ==>
                  && Claims(db, StepClaim(queue, {}, now), ItemOf(queue, id))
                  && TicketOf(db, StepClaim(queue, {}, now), ItemOf(queue, id)) == claim.ticket)
  {
    hide Claimable, ClaimItem, ClaimNext;
    assert Lowest(id, Candidates(db, queue, {}, now));
    ClaimNextTakes(db, queue, {}, now, id);
  }

  lemma HistoryScans()
    ensures Apply(Apply(Apply(EMPTY, HISTORY[0]), HISTORY[1]), HISTORY[2]) == Scanned(BEFORE, FRESH, None, FRESH)
  {
    var db := EMPTY.(terminals := {"T"}, routes := map["T" := BEFORE]);
    assert Apply(Apply(EMPTY, HISTORY[0]), HISTORY[1]) == db;
    assert !Archived(db, "T", "E");
    assert InsertEvent(db, SCAN, 0) == Ok(Scanned(BEFORE, FRESH, None, FRESH));
    assert [SCAN][1..] == [];
    assert Ingest(Scanned(BEFORE, FRESH, None, FRESH), [], 0) == Ok(Scanned(BEFORE, FRESH, None, FRESH));
  }

  lemma HistoryDelivers()
    ensures Apply(Scanned(BEFORE, FRESH, None, FRESH), HISTORY[3]) == Scanned(BEFORE, HELD, None, FRESH)
    ensures Apply(Scanned(BEFORE, HELD, None, FRESH), HISTORY[4]) == Scanned(BEFORE, DONE, None, FRESH)
  {
    hide ClaimNext;
    var db := Scanned(BEFORE, FRESH, None, FRESH);
    assert Candidates(db, Events, {}, 0) == {2};
    ClaimOnly(db, Events, 2, 0);
  }

  lemma HistoryRefuses()
    ensures Apply(Scanned(BEFORE, DONE, None, FRESH), HISTORY[5]) == Scanned(BEFORE, DONE, Some(PICTURE), HELD)
    ensures Apply(Scanned(BEFORE, DONE, Some(PICTURE), HELD), HISTORY[6])
         == Scanned(BEFORE, DONE, Some(PICTURE), REFUSED)
  {
    hide ClaimNext;
    var db := Scanned(BEFORE, DONE, None, FRESH);
    assert Candidates(db, Pictures, {}, 0) == {3};
    ClaimOnly(db, Pictures, 3, 0);
  }

  lemma HistoryReroutes()
    ensures Apply(Scanned(BEFORE, DONE, Some(PICTURE), REFUSED), HISTORY[7])
         == Scanned(AFTER, DONE, Some(PICTURE), REFUSED)
  {
    var db := Scanned(BEFORE, DONE, Some(PICTURE), REFUSED);
    assert forall a :: !AttachmentBusy(db, a, 2);
    assert !Busy(db, 2, "T");
    assert db.routes["T" := AFTER] == map["T" := AFTER];
    hide Busy;
    assert SaveRoute(db, "T", AFTER) == Ok(Scanned(AFTER, DONE, Some(PICTURE), REFUSED));
  }

  lemma HistoryRetries()
    ensures Apply(Scanned(AFTER, DONE, Some(PICTURE), REFUSED), HISTORY[8])
         == Scanned(AFTER, DONE, Some(PICTURE), Revive(REFUSED, 9))
  {
    hide Busy, AddAll, AddPictures, ClaimNext;
  }

  lemma HistoryReaches()
    ensures Exec(EMPTY, HISTORY[..8]) == Scanned(AFTER, DONE, Some(PICTURE), REFUSED)
    ensures Exec(EMPTY, HISTORY) == Scanned(AFTER, DONE, Some(PICTURE), Revive(REFUSED, 9))
  {
    hide Apply, Scanned;
    HistoryScans();
    HistoryDelivers();
    HistoryRefuses();
    HistoryReroutes();
    HistoryRetries();
    assert HISTORY[..0] == [] && Exec(EMPTY, HISTORY[..0]) == EMPTY;
    OneMore(EMPTY, HISTORY, 0);
    OneMore(EMPTY, HISTORY, 1);
    OneMore(EMPTY, HISTORY, 2);
    OneMore(EMPTY, HISTORY, 3);
    OneMore(EMPTY, HISTORY, 4);
    OneMore(EMPTY, HISTORY, 5);
    OneMore(EMPTY, HISTORY, 6);
    OneMore(EMPTY, HISTORY, 7);
    OneMore(EMPTY, HISTORY, 8);
    assert HISTORY[..9] == HISTORY;
  }

  lemma OneMore(db: Db, steps: seq<Step>, n: nat)
    requires n < |steps|
    ensures Exec(db, steps[..n + 1]) == Apply(Exec(db, steps[..n]), steps[n])
  {
    hide Apply;
    ExecSplit(db, steps, n, n + 1);
    assert steps[n + 1..n + 1] == [];
  }

  /** The next claim then hands the picture out for the earlier destination, although the route has another. */
  lemma PictureAstrayExample()
    ensures var db := Exec(EMPTY, HISTORY);
            var claim := StepClaim(Pictures, {}, 9);
            && Stray(Exec(EMPTY, HISTORY[..8]), PictureItem(3)) && !AllAimed(db)
            && "T" in db.routes && db.routes["T"] == AFTER
            && Claims(db, claim, PictureItem(3))
            && TicketOf(db, claim, PictureItem(3)).endpoint == BEFORE.endpoint != db.routes["T"].endpoint
  {
    hide Exec, Apply, ClaimNext, Claims, TicketOf;
    HistoryReaches();
    RoutesDiffer();
    var db := Scanned(AFTER, DONE, Some(PICTURE), Revive(REFUSED, 9));
    assert Candidates(db, Pictures, {}, 9) == {3};
    ClaimOnly(db, Pictures, 3, 9);
    assert Exists(db, PictureItem(3)) && !Aimed(db, PictureItem(3));
  }

  // ----- Picture backfills ---------------------------------------------------

  /** What a preview up to `through` shows. */
  ghost function PreviewPictures(db: Db, terminal: Serial, through: int): PictureToken {
    var ids := InOrder(PicturelessIds(db, terminal, through));
    PictureToken(terminal, through,
                 seq(|ids|, i requires 0 <= i < |ids| =>
                   assert ids[i] in ids; PictureEntry(ids[i], db.deliveries[ids[i]].endpoint,
                                                      db.deliveries[ids[i]].key)))
  }

  /** Some token is accepted exactly if the route is enabled and between 1 and 5000 delivered events lack a picture. */
  lemma PicturesAcceptedIff(db: Db, terminal: Serial, asked: int, through: int, now: int)
    requires terminal in db.terminals && Through(db, terminal, asked, through)
    ensures (exists token :: QueuePictures(db, terminal, asked, token, now).Ok?) <==>
              RouteEnabled(db, terminal) && 0 < |InOrder(PicturelessIds(db, terminal, through))| <= 5000
  {
    hide Pictureless, InOrder, Through, AddPictures;
    OneBound(db, terminal, asked, through);
    var ids := InOrder(PicturelessIds(db, terminal, through));
    assert forall i :: 0 <= i < |ids| ==> ids[i] in ids;
    var token := PreviewPictures(db, terminal, through);
    assert IsPicturePreview(db, token, terminal, asked);
    if RouteEnabled(db, terminal) && 0 < |InOrder(PicturelessIds(db, terminal, through))| <= 5000 {
      assert QueuePictures(db, terminal, asked, token, now).Ok?;
    }
  }

  /** Afterwards no delivered event up to the bound lacks a picture. */
  lemma PicturesComplete(db: Db, terminal: Serial, asked: int, token: PictureToken, now: int)
    requires Inv(db) && QueuePictures(db, terminal, asked, token, now).Ok?
    ensures PicturelessIds(QueuePictures(db, terminal, asked, token, now).value, terminal, token.through) == {}
  {
    hide Inv, InOrder, Through, AddPictures, HasPicture, FreshIds, ArchiveStays;
    InvFresh(db);
    PicturesAdd(db, terminal, asked, token, now);
    var after := QueuePictures(db, terminal, asked, token, now).value;
    var ids := InOrder(PicturelessIds(db, terminal, token.through));
    forall d | d in after.deliveries ensures !Pictureless(after, d, terminal, token.through) {
      if Pictureless(db, d, terminal, token.through) {
        assert d in ids;
        var i :| 0 <= i < |ids| && ids[i] == d;
        assert HasPicture(after, token.entries[i].delivery);
      } else if HasPicture(db, d) {
        PictureStays(db, after, d);
      }
    }
  }

  /** A token that is accepted, for a delivery of the version before pictures. */
  lemma PictureTokenExample()
    ensures var db := Inherited(Delivered);
            var token := PictureToken("T", 2, [PictureEntry(2, BEFORE.endpoint, BEFORE.key)]);
            && Initial(db) && AcceptsPictures(db, StepPictures("T", 0, token, 9))
            && Apply(db, StepPictures("T", 0, token, 9)).attachments == map[3 := Attachment(2, None, NewWork(9))]
  {
    hide Initial, InOrder;
    InheritedIsInitial(Delivered);
    var db := Inherited(Delivered);
    var token := PictureToken("T", 2, [PictureEntry(2, BEFORE.endpoint, BEFORE.key)]);
    assert Pictureless(db, 2, "T", 2);
    assert PicturelessIds(db, "T", 2) == {2};
    InOrderOne(2);
    assert Through(db, "T", 0, 2);
    OneBound(db, "T", 0, 2);
    assert IsPicturePreview(db, token, "T", 0);
    var added := db.(attachments := db.attachments[3 := Attachment(2, None, NewWork(9))], nextId := 4);
    assert token.entries[1..] == [] && AddPictures(db, token.entries, 9) == AddPictures(added, [], 9);
  }
}
