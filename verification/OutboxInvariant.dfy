/**
 The inductive invariant of the outbox, kept by every step.
 */
module OutboxInvariant {
  import opened Wrappers
  import opened Ordering
  import opened Terminals
  import opened Messages
  import opened OutboxModel
  import Backfill

  // ----- The invariant -------------------------------------------------------

  predicate WorkOk(w: Work) {
    (w.status.Sending? <==> w.leaseUntil.Some?) && (w.attempts == 0 ==> w.status.Pending?)
  }

  predicate OriginOk(db: Db, origin: Origin, terminal: Serial, body: Message) {
    match origin
    case Live(e) => e in db.events && db.events[e].terminal == terminal && body.source.PushSDK?
    case Retained(r) => r in db.records && db.records[r].terminal == terminal && body.source.ISAPI?
  }

  /** Unfinished work keeps its route. */
  predicate DeliveryOk(db: Db, d: nat)
    requires d in db.deliveries
  {
    var delivery := db.deliveries[d];
    && d < db.nextId && WorkOk(delivery.work) && delivery.terminal in db.terminals
    && delivery.body.terminal == delivery.terminal
    && OriginOk(db, delivery.origin, delivery.terminal, delivery.body)
    && (!delivery.work.status.Delivered? ==> delivery.terminal in db.routes)
  }

  /**
   A picture is sent only after its event was delivered, and always with the same body. Until then the event goes
   where the route points: its waiting picture keeps the route from changing.
   */
  predicate AttachmentOk(db: Db, a: nat)
    requires a in db.attachments
  {
    var attachment := db.attachments[a];
    && a < db.nextId && WorkOk(attachment.work) && attachment.parent in db.deliveries
    && var parent := db.deliveries[attachment.parent];
       && (!attachment.work.status.Delivered? ==> parent.terminal in db.routes)
       && (!parent.work.status.Delivered? ==> PointsAt(db, parent.terminal, parent.endpoint, parent.key))
       && (attachment.work.attempts > 0 ==> parent.work.status.Delivered?)
       && (attachment.work.attempts > 0 <==> attachment.body.Some?)
       && (attachment.body.Some? ==> attachment.body == MakePicture(db, parent))
  }

  predicate ArchiveOk(db: Db) {
    && (forall e :: e in db.events ==> e < db.nextId && db.events[e].terminal in db.terminals)
    && (forall r :: r in db.records ==> r < db.nextId && db.records[r].terminal in db.terminals)
    && (forall b :: b in db.batches ==> b < db.nextId)
    && db.nextId > 0 && db.routes.Keys <= db.terminals
  }

  /** A spent token: everything it listed is queued. */
  predicate Spent(db: Db, token: Backfill.Preview) {
    token.candidates != [] && forall i :: 0 <= i < |token.candidates| ==> Queued(db, OriginOf(token.candidates[i]))
  }

  ghost predicate UniqueEvents(db: Db) {
    forall e, e' :: e in db.events && IsEvent(db, e', db.events[e].terminal, db.events[e].vendorId) ==> e == e'
  }

  ghost predicate Unique(db: Db) {
    && (var q := db.deliveries; forall d, d' :: d in q && d' in q && q[d].origin == q[d'].origin ==> d == d')
    && (var q := db.attachments; forall a, a' :: a in q && a' in q && q[a].parent == q[a'].parent ==> a == a')
    && UniqueEvents(db)
    && (forall b, b' :: b in db.batches && b' in db.batches && db.batches[b].token == db.batches[b'].token ==> b == b')
  }

  ghost predicate Inv(db: Db) {
    && ArchiveOk(db) && Unique(db)
    && (forall d {:trigger DeliveryOk(db, d)} :: d in db.deliveries ==> DeliveryOk(db, d))
    && (forall a {:trigger AttachmentOk(db, a)} :: a in db.attachments ==> AttachmentOk(db, a))
    && (forall b {:trigger Spent(db, db.batches[b].token)} :: b in db.batches ==> Spent(db, db.batches[b].token))
  }

  // ----- Leases --------------------------------------------------------------

  lemma SpentFrame(db: Db, db': Db, token: Backfill.Preview)
    requires Spent(db, token)
    requires forall d :: d in db.deliveries ==>
               d in db'.deliveries && db'.deliveries[d].origin == db.deliveries[d].origin
    ensures Spent(db', token)
  {
    forall i | 0 <= i < |token.candidates| ensures Queued(db', OriginOf(token.candidates[i])) {
      assert Queued(db, OriginOf(token.candidates[i]));
      var d :| d in db.deliveries && Carries(db, d, OriginOf(token.candidates[i]));
      assert Carries(db', d, OriginOf(token.candidates[i]));
    }
  }

  lemma BatchesFrame(db: Db, db': Db)
    requires Inv(db) && db'.batches == db.batches
    requires forall d :: d in db.deliveries ==>
               d in db'.deliveries && db'.deliveries[d].origin == db.deliveries[d].origin
    ensures forall b {:trigger Spent(db', db'.batches[b].token)} ::
              b in db'.batches ==> Spent(db', db'.batches[b].token)
  {
    forall b | b in db'.batches ensures Spent(db', db'.batches[b].token) {
      assert Spent(db, db.batches[b].token);
      SpentFrame(db, db', db.batches[b].token);
    }
  }

  lemma UniqueEventsFrame(db: Db, db': Db)
    requires UniqueEvents(db) && db'.events.Keys == db.events.Keys
    requires forall e :: e in db.events ==>
               db'.events[e].terminal == db.events[e].terminal && db'.events[e].vendorId == db.events[e].vendorId
    ensures UniqueEvents(db')
  {
    forall e, e' | e in db'.events && IsEvent(db', e', db'.events[e].terminal, db'.events[e].vendorId) ensures e == e' {
      assert IsEvent(db, e', db.events[e].terminal, db.events[e].vendorId);
    }
  }

  lemma UniqueFrame(db: Db, db': Db)
    requires Unique(db) && db'.batches == db.batches
    requires db'.deliveries.Keys == db.deliveries.Keys && db'.attachments.Keys == db.attachments.Keys
    requires db'.events.Keys == db.events.Keys
    requires forall d :: d in db.deliveries ==> db'.deliveries[d].origin == db.deliveries[d].origin
    requires forall a :: a in db.attachments ==> db'.attachments[a].parent == db.attachments[a].parent
    requires forall e :: e in db.events ==>
               db'.events[e].terminal == db.events[e].terminal && db'.events[e].vendorId == db.events[e].vendorId
    ensures Unique(db')
  {
    UniqueEventsFrame(db, db');
  }

  lemma EventWorkKeepsInv(db: Db, d: nat, w: Work)
    requires Inv(db) && d in db.deliveries && WorkOk(w) && !db.deliveries[d].work.status.Delivered?
    ensures Inv(SetWork(db, EventItem(d), w))
  {
    hide Spent, MakePicture, Unique, OriginOk;
    var db' := SetWork(db, EventItem(d), w);
    BatchesFrame(db, db');
    UniqueFrame(db, db');
    forall k | k in db'.deliveries ensures DeliveryOk(db', k) {
      assert DeliveryOk(db, k);
      OriginStays(db, db', db.deliveries[k].origin, db.deliveries[k].terminal, db.deliveries[k].body);
    }
    forall a | a in db'.attachments ensures AttachmentOk(db', a) {
      assert AttachmentOk(db, a);
      SamePicture(db, db', db.attachments[a].parent);
    }
  }

  /** `body` is the one the attachment already has, or the one made now. */
  lemma PictureWorkKeepsInv(db: Db, a: nat, body: Option<Picture>, w: Work)
    requires Inv(db) && a in db.attachments && WorkOk(w)
    requires var old' := db.attachments[a];
             && !old'.work.status.Delivered?
             && (w.attempts > 0 <==> body.Some?) && (old'.body.Some? ==> body == old'.body)
             && (body.Some? ==>
                   && old'.parent in db.deliveries && db.deliveries[old'.parent].work.status.Delivered?
                   && body == MakePicture(db, db.deliveries[old'.parent]))
    ensures Inv(db.(attachments := db.attachments[a := Attachment(db.attachments[a].parent, body, w)]))
  {
    hide Spent, MakePicture, Unique, OriginOk;
    var db' := db.(attachments := db.attachments[a := Attachment(db.attachments[a].parent, body, w)]);
    BatchesFrame(db, db');
    UniqueFrame(db, db');
    forall k | k in db'.deliveries ensures DeliveryOk(db', k) {
      assert DeliveryOk(db, k);
      OriginStays(db, db', db.deliveries[k].origin, db.deliveries[k].terminal, db.deliveries[k].body);
    }
    assert AttachmentOk(db, a);
    forall k | k in db'.attachments ensures AttachmentOk(db', k) {
      assert AttachmentOk(db, k);
      SamePicture(db, db', db.attachments[k].parent);
    }
  }

  /** A claim never finds the event missing. */
  lemma ClaimItemKeepsInv(db: Db, item: Item, now: int)
    requires Inv(db) && Claimable(db, item, now)
    ensures ClaimItem(db, item, now).Ok? && Inv(ClaimItem(db, item, now).value.db)
  {
    hide Inv, Spent;
    match item
    case EventItem(d) =>
      assert DeliveryOk(db, d) by { InvParts(db, d); }
      EventWorkKeepsInv(db, d, Take(db.deliveries[d].work, now));
    case PictureItem(a) =>
      assert AttachmentOk(db, a) by { InvParts(db, a); }
      var parent := db.attachments[a].parent;
      assert DeliveryOk(db, parent) by { InvParts(db, parent); }
      var made := MakePicture(db, db.deliveries[parent]);
      PictureWorkKeepsInv(db, a, made, Take(db.attachments[a].work, now));
  }

  lemma InvParts(db: Db, id: nat)
    requires Inv(db)
    ensures id in db.deliveries ==> DeliveryOk(db, id)
    ensures id in db.attachments ==> AttachmentOk(db, id)
    ensures id in db.batches ==> Spent(db, db.batches[id].token)
  {
  }

  lemma InvArchive(db: Db)
    requires Inv(db)
    ensures ArchiveOk(db) && UniqueEvents(db)
  {
  }

  lemma WorkKeepsInv(db: Db, item: Item, w: Work)
    requires Inv(db) && Exists(db, item) && WorkOk(w) && !WorkOf(db, item).status.Delivered?
    requires w.attempts == WorkOf(db, item).attempts
    ensures Inv(SetWork(db, item, w))
  {
    hide Inv, MakePicture;
    match item
    case EventItem(d) => EventWorkKeepsInv(db, d, w);
    case PictureItem(a) =>
      InvParts(db, a);
      PictureWorkKeepsInv(db, a, db.attachments[a].body, w);
  }

  /** The picture message depends on nothing that ever changes. */
  lemma SamePicture(db: Db, db': Db, d: nat)
    requires d in db.deliveries && d in db'.deliveries
    requires db'.deliveries[d].origin == db.deliveries[d].origin && db'.deliveries[d].body == db.deliveries[d].body
    requires forall e :: e in db.events ==> e in db'.events && db'.events[e].payload == db.events[e].payload
    ensures MakePicture(db, db.deliveries[d]).Some? ==>
              MakePicture(db', db'.deliveries[d]) == MakePicture(db, db.deliveries[d])
  {
  }

  // ----- New rows ------------------------------------------------------------

  lemma AddDeliveryUnique(db: Db, origin: Origin, batch: Option<nat>, terminal: Serial, route: Route, body: Message,
                          now: int)
    requires Inv(db) && !Queued(db, origin)
    ensures Unique(AddDelivery(db, origin, batch, terminal, route, body, now))
  {
    hide Spent, MakePicture, OriginOk;
    var db' := AddDelivery(db, origin, batch, terminal, route, body, now);
    forall d | d in db.deliveries ensures db.deliveries[d].origin != origin {
      assert !Carries(db, d, origin);
    }
    forall a | a in db.attachments ensures db.attachments[a].parent != db.nextId {
      assert AttachmentOk(db, a) && DeliveryOk(db, db.attachments[a].parent);
    }
    UniqueEventsFrame(db, db');
  }

  lemma AddDeliveryKeepsInv(db: Db, origin: Origin, batch: Option<nat>, terminal: Serial, route: Route, body: Message,
                            now: int)
    requires Inv(db) && !Queued(db, origin) && OriginOk(db, origin, terminal, body)
    requires body.terminal == terminal && PointsAt(db, terminal, route.endpoint, route.key)
    ensures Inv(AddDelivery(db, origin, batch, terminal, route, body, now))
  {
    hide Spent, MakePicture, Unique;
    var db' := AddDelivery(db, origin, batch, terminal, route, body, now);
    AddDeliveryUnique(db, origin, batch, terminal, route, body, now);
    assert db.nextId !in db.deliveries by { InvParts(db, db.nextId); }
    assert db.nextId + 1 !in db.attachments by { InvParts(db, db.nextId + 1); }
    BatchesFrame(db, db');
    forall k | k in db'.deliveries ensures DeliveryOk(db', k) {
      assert k in db.deliveries ==> DeliveryOk(db, k);
    }
    forall a | a in db'.attachments ensures AttachmentOk(db', a) {
      if a in db.attachments {
        assert AttachmentOk(db, a);
        SamePicture(db, db', db.attachments[a].parent);
      }
    }
  }

  lemma AddPictureUnique(db: Db, d: nat, now: int)
    requires Unique(db) && !HasPicture(db, d)
    ensures Unique(db.(attachments := db.attachments[db.nextId := Attachment(d, None, NewWork(now))],
                       nextId := db.nextId + 1))
  {
    hide UniqueEvents;
    var a := Attachment(d, None, NewWork(now));
    UniqueEventsFrame(db, db.(attachments := db.attachments[db.nextId := a], nextId := db.nextId + 1));
  }

  lemma AddPictureKeepsInv(db: Db, d: nat, now: int)
    requires Inv(db) && d in db.deliveries && db.deliveries[d].work.status.Delivered?
    requires db.deliveries[d].terminal in db.routes && !HasPicture(db, d)
    ensures Inv(db.(attachments := db.attachments[db.nextId := Attachment(d, None, NewWork(now))],
                    nextId := db.nextId + 1))
  {
    hide Spent, MakePicture, Unique, OriginOk;
    var db' := db.(attachments := db.attachments[db.nextId := Attachment(d, None, NewWork(now))],
                   nextId := db.nextId + 1);
    assert db.nextId !in db.attachments by { InvParts(db, db.nextId); }
    BatchesFrame(db, db');
    AddPictureUnique(db, d, now);
    forall k | k in db'.deliveries ensures DeliveryOk(db', k) {
      assert DeliveryOk(db, k);
      OriginStays(db, db', db.deliveries[k].origin, db.deliveries[k].terminal, db.deliveries[k].body);
    }
    forall a | a in db'.attachments ensures AttachmentOk(db', a) {
      if a in db.attachments {
        assert AttachmentOk(db, a);
        SamePicture(db, db', db.attachments[a].parent);
      }
    }
  }

  /**
   Anything that leaves deliveries, attachments and batches alone and only adds to the archive, or revises projections.
   */
  lemma ArchiveKeepsInv(db: Db, db': Db)
    requires Inv(db) && ArchiveOk(db')
    requires db'.deliveries == db.deliveries && db'.attachments == db.attachments && db'.batches == db.batches
    requires db'.routes == db.routes && db.terminals <= db'.terminals && db.nextId <= db'.nextId
    requires forall e :: e in db.events ==>
               && e in db'.events && db'.events[e].payload == db.events[e].payload
               && db'.events[e].terminal == db.events[e].terminal
    requires forall r :: r in db.records ==> r in db'.records && db'.records[r] == db.records[r]
    requires UniqueEvents(db')
    ensures Inv(db')
  {
    hide Spent, MakePicture;
    BatchesFrame(db, db');
    forall d | d in db'.deliveries ensures DeliveryOk(db', d) {
      assert DeliveryOk(db, d);
    }
    forall a | a in db'.attachments ensures AttachmentOk(db', a) {
      assert AttachmentOk(db, a);
      SamePicture(db, db', db.attachments[a].parent);
    }
  }

  lemma AddEventKeepsInv(db: Db, e: DeviceEvent)
    requires Inv(db) && e.terminal in db.terminals && !Archived(db, e.terminal, e.vendorId)
    ensures Inv(db.(events := db.events[db.nextId := e], nextId := db.nextId + 1))
    ensures !Queued(db.(events := db.events[db.nextId := e], nextId := db.nextId + 1), Live(db.nextId))
  {
    hide Spent, MakePicture;
    var db' := db.(events := db.events[db.nextId := e], nextId := db.nextId + 1);
    assert forall k :: k in db.events ==> !IsEvent(db, k, e.terminal, e.vendorId);
    forall k, k' | k in db'.events && IsEvent(db', k', db'.events[k].terminal, db'.events[k].vendorId) ensures k == k' {
      assert !IsEvent(db, k, e.terminal, e.vendorId) && !IsEvent(db, k', e.terminal, e.vendorId);
      if k in db.events && k' in db.events {
        assert IsEvent(db, k', db.events[k].terminal, db.events[k].vendorId);
      }
    }
    ArchiveKeepsInv(db, db');
    forall d | d in db'.deliveries ensures !Carries(db', d, Live(db.nextId)) {
      assert DeliveryOk(db, d);
    }
  }

  lemma InsertEventKeepsInv(db: Db, e: DeviceEvent, now: int)
    requires Inv(db)
    ensures InsertEvent(db, e, now).Ok? ==> Inv(InsertEvent(db, e, now).value)
  {
    hide Inv, Spent, Unique, Archived;
    if InsertEvent(db, e, now).Ok? && !Archived(db, e.terminal, e.vendorId) {
      AddEventKeepsInv(db, e);
      var added := db.(events := db.events[db.nextId := e], nextId := db.nextId + 1);
      if Qualifies(e) && RouteEnabled(db, e.terminal) {
        AddDeliveryKeepsInv(added, Live(db.nextId), None, e.terminal, db.routes[e.terminal], LiveMessage(e), now);
      }
    }
  }

  lemma {:induction false} IngestKeepsInv(db: Db, batch: seq<DeviceEvent>, now: int)
    requires Inv(db)
    ensures Ingest(db, batch, now).Ok? ==> Inv(Ingest(db, batch, now).value)
    decreases |batch|
  {
    hide Inv, InsertEvent;
    if batch != [] {
      InsertEventKeepsInv(db, batch[0], now);
      if InsertEvent(db, batch[0], now).Ok? {
        IngestKeepsInv(InsertEvent(db, batch[0], now).value, batch[1..], now);
      }
    }
  }

  // ----- Routes --------------------------------------------------------------

  /** The terminal's destination is another one, or gone. */
  predicate Rerouted(db: Db, routes: map<Serial, Route>, t: Serial) {
    && t in db.routes
    && (t in routes ==> routes[t].endpoint != db.routes[t].endpoint || routes[t].key != db.routes[t].key)
  }

  lemma RoutesKeepInv(db: Db, routes: map<Serial, Route>)
    requires Inv(db) && routes.Keys <= db.terminals
    requires forall t, d :: Rerouted(db, routes, t) && d in db.deliveries ==> !Busy(db, d, t)
    requires forall t, d :: t in db.routes && t !in routes && d in db.deliveries ==> !Open(db, d, t)
    ensures Inv(db.(routes := routes))
  {
    hide Spent, MakePicture, Unique;
    var db' := db.(routes := routes);
    BatchesFrame(db, db');
    UniqueFrame(db, db');
    forall d | d in db'.deliveries ensures DeliveryOk(db', d) {
      assert DeliveryOk(db, d);
      var t := db.deliveries[d].terminal;
      assert t in db.routes && t !in routes ==> !Open(db, d, t);
    }
    forall a | a in db'.attachments ensures AttachmentOk(db', a) {
      RoutesKeepAttachment(db, routes, a);
    }
  }

  /** An undelivered event's picture waits, which makes its terminal busy. */
  lemma RoutesKeepAttachment(db: Db, routes: map<Serial, Route>, a: nat)
    requires Inv(db) && a in db.attachments
    requires forall t, d :: Rerouted(db, routes, t) && d in db.deliveries ==> !Busy(db, d, t)
    requires forall t, d :: t in db.routes && t !in routes && d in db.deliveries ==> !Open(db, d, t)
    ensures AttachmentOk(db.(routes := routes), a)
  {
    hide Spent, MakePicture, Unique, OriginOk;
    InvParts(db, a);
    var d := db.attachments[a].parent;
    InvParts(db, d);
    var t := db.deliveries[d].terminal;
    SamePicture(db, db.(routes := routes), d);
    if !db.attachments[a].work.status.Delivered? {
      assert AttachmentOpen(db, a, d);
      assert Open(db, d, t);
    }
    if !db.deliveries[d].work.status.Delivered? {
      assert AttachmentBusy(db, a, d);
      assert Busy(db, d, t) && !Rerouted(db, routes, t);
    }
  }

  lemma BusyIsOpen(db: Db, d: nat, terminal: Serial)
    requires Busy(db, d, terminal)
    ensures Open(db, d, terminal)
  {
    if !InFlight(db.deliveries[d].work) {
      var a :| a in db.attachments && AttachmentBusy(db, a, d);
      assert AttachmentOpen(db, a, d);
    }
  }

  lemma RouteStepsKeepInv(db: Db, terminal: Serial, route: Route)
    requires Inv(db)
    ensures SaveRoute(db, terminal, route).Ok? ==> Inv(SaveRoute(db, terminal, route).value)
    ensures DeleteRoute(db, terminal).Ok? ==> Inv(DeleteRoute(db, terminal).value)
  {
    hide Spent, Unique, Open, Busy, DeliveryOk, AttachmentOk;
    if SaveRoute(db, terminal, route).Ok? {
      RoutesKeepInv(db, db.routes[terminal := route]);
    }
    if DeleteRoute(db, terminal).Ok? {
      forall d | d in db.deliveries ensures !Busy(db, d, terminal) {
        if Busy(db, d, terminal) {
          BusyIsOpen(db, d, terminal);
        }
      }
      RoutesKeepInv(db, db.routes - {terminal});
    }
  }

  // ----- Backfills -----------------------------------------------------------

  predicate IsRowOf(db: Db, row: Backfill.Row, terminal: Serial) {
    && row.message.terminal == terminal
    && if row.message.source.PushSDK? then
         row.id in db.events && db.events[row.id].terminal == terminal && row.queued == Queued(db, Live(row.id))
       else
         row.id in db.records && db.records[row.id].terminal == terminal && row.queued == Queued(db, Retained(row.id))
  }

  /** The query returns each archived row once, live rows first. */
  lemma RowsAreRows(db: Db, terminal: Serial, from: int, until: int)
    ensures var rows := Rows(db, terminal, from, until);
            && (forall i :: 0 <= i < |rows| ==> IsRowOf(db, rows[i], terminal))
            && Backfill.NoRowTwice(rows) && Backfill.LiveFirst(rows)
  {
    hide Queued, SortedKeys, Ascending;
    var live := InOrder(LiveIds(db, terminal, from, until));
    var records := InOrder(RecordIds(db, terminal, from, until));
    var rows := Rows(db, terminal, from, until);
    forall i | 0 <= i < |rows|
      ensures IsRowOf(db, rows[i], terminal)
      ensures i < |live| ==> rows[i].message.source.PushSDK? && rows[i].id == live[i]
      ensures i >= |live| ==> rows[i].message.source.ISAPI? && rows[i].id == records[i - |live|]
    {
      if i < |live| {
        assert live[i] in live && rows[i] == LiveRow(db, live[i]);
      } else {
        assert records[i - |live|] in records && rows[i] == RecordRow(db, records[i - |live|]);
      }
    }
  }

  /** What may be queued: an archived record of the terminal that no delivery carries yet. */
  predicate Ready(db: Db, terminal: Serial, c: Backfill.Candidate) {
    && c.body.terminal == terminal && !Queued(db, OriginOf(c)) && OriginOk(db, OriginOf(c), terminal, c.body)
  }

  ghost predicate AllReady(db: Db, terminal: Serial, candidates: seq<Backfill.Candidate>) {
    && (forall i :: 0 <= i < |candidates| ==> Ready(db, terminal, candidates[i]))
    && (forall i, j :: 0 <= i < j < |candidates| ==> OriginOf(candidates[i]) != OriginOf(candidates[j]))
  }

  lemma PreviewIsReady(db: Db, terminal: Serial, from: int, until: int, token: Backfill.Preview)
    requires terminal in db.routes
    requires Backfill.IsPreview(token, Rows(db, terminal, from, until), terminal, db.routes[terminal], from, until)
    ensures AllReady(db, terminal, token.candidates) && token.route == db.routes[terminal]
  {
    hide Queued, Rows, Backfill.Select, ValidMessage, Backfill.HasLiveTwin, Backfill.AreIdentities;
    var rows := Rows(db, terminal, from, until);
    RowsAreRows(db, terminal, from, until);
    Backfill.Selected(rows, rows, Backfill.Eligible);
    Backfill.SelectsNoRowTwice(rows, rows, Backfill.Eligible);
    var q := Backfill.Select(rows, rows, Backfill.Eligible);
    forall i | 0 <= i < |q| ensures Ready(db, terminal, token.candidates[i]) {
      assert q[i] in rows && Backfill.Classify(rows, q[i]).Eligible? && IsRowOf(db, q[i], terminal);
    }
    forall i, j | 0 <= i < j < |q| ensures OriginOf(token.candidates[i]) != OriginOf(token.candidates[j]) {
      assert !Backfill.SameRow(q[i], q[j]);
    }
  }

  lemma AddDeliveryQueues(db: Db, origin: Origin, batch: Option<nat>, terminal: Serial, route: Route, body: Message,
                          now: int, other: Origin)
    requires Inv(db)
    ensures var db' := AddDelivery(db, origin, batch, terminal, route, body, now);
            Queued(db', other) <==> Queued(db, other) || other == origin
  {
    hide Spent, MakePicture, Unique, OriginOk;
    var db' := AddDelivery(db, origin, batch, terminal, route, body, now);
    assert db.nextId !in db.deliveries by { InvParts(db, db.nextId); }
    if Queued(db, other) {
      var d :| d in db.deliveries && Carries(db, d, other);
      assert Carries(db', d, other);
    }
    if other == origin {
      assert Carries(db', db.nextId, other);
    }
    if Queued(db', other) {
      var d :| d in db'.deliveries && Carries(db', d, other);
      assert d in db.deliveries ==> Carries(db, d, other);
    }
  }

  predicate Lists(candidates: seq<Backfill.Candidate>, origin: Origin) {
    exists i :: 0 <= i < |candidates| && OriginOf(candidates[i]) == origin
  }

  lemma ListsSplit(candidates: seq<Backfill.Candidate>, origin: Origin)
    requires candidates != []
    ensures Lists(candidates, origin) <==> origin == OriginOf(candidates[0]) || Lists(candidates[1..], origin)
  {
    assert forall i :: 0 < i < |candidates| ==> candidates[1..][i - 1] == candidates[i];
    if Lists(candidates, origin) {
      var i :| 0 <= i < |candidates| && OriginOf(candidates[i]) == origin;
      assert i > 0 ==> OriginOf(candidates[1..][i - 1]) == origin;
    }
    if Lists(candidates[1..], origin) {
      var i :| 0 <= i < |candidates[1..]| && OriginOf(candidates[1..][i]) == origin;
      assert OriginOf(candidates[i + 1]) == origin;
    }
  }

  lemma NothingListed()
    ensures forall origin :: !Lists([], origin)
  {
  }

  /** Every candidate becomes a delivery, and nothing else becomes queued. */
  lemma {:induction false} AddAllKeepsInv(db: Db, batch: nat, terminal: Serial, route: Route,
                                          candidates: seq<Backfill.Candidate>, now: int)
    requires Inv(db) && PointsAt(db, terminal, route.endpoint, route.key) && AllReady(db, terminal, candidates)
    ensures Inv(AddAll(db, batch, terminal, route, candidates, now))
    ensures forall origin :: Queued(AddAll(db, batch, terminal, route, candidates, now), origin)
                             <==> Queued(db, origin) || Lists(candidates, origin)
    decreases |candidates|
  {
    hide Inv, Queued, OriginOk, Lists;
    if candidates == [] {
      NothingListed();
    } else {
      var c, rest := candidates[0], candidates[1..];
      var db' := AddDelivery(db, OriginOf(c), Some(batch), terminal, route, c.body, now);
      AddDeliveryKeepsInv(db, OriginOf(c), Some(batch), terminal, route, c.body, now);
      forall other ensures Queued(db', other) <==> Queued(db, other) || other == OriginOf(c) {
        AddDeliveryQueues(db, OriginOf(c), Some(batch), terminal, route, c.body, now, other);
      }
      forall i | 0 <= i < |rest| ensures Ready(db', terminal, rest[i]) {
        assert rest[i] == candidates[i + 1] && Ready(db, terminal, candidates[i + 1]);
        OriginStays(db, db', OriginOf(rest[i]), terminal, rest[i].body);
      }
      AddAllKeepsInv(db', batch, terminal, route, rest, now);
      forall origin ensures Lists(candidates, origin) <==> origin == OriginOf(c) || Lists(rest, origin) {
        ListsSplit(candidates, origin);
      }
    }
  }

  lemma OriginStays(db: Db, db': Db, origin: Origin, terminal: Serial, body: Message)
    requires OriginOk(db, origin, terminal, body) && db'.events == db.events && db'.records == db.records
    ensures OriginOk(db', origin, terminal, body)
  {
  }

  lemma {:induction false} AddAllKeepsBatches(db: Db, batches: map<nat, Batch>, batch: nat, terminal: Serial,
                                              route: Route,
                                              candidates: seq<Backfill.Candidate>, now: int)
    ensures AddAll(db.(batches := batches), batch, terminal, route, candidates, now)
         == AddAll(db, batch, terminal, route, candidates, now).(batches := batches)
    ensures var after := AddAll(db, batch, terminal, route, candidates, now);
            && after.batches == db.batches && after.routes == db.routes && after.events == db.events
            && after.records == db.records && after.terminals == db.terminals && after.nextId >= db.nextId
    decreases |candidates|
  {
    if candidates != [] {
      var c := candidates[0];
      var db' := AddDelivery(db, OriginOf(c), Some(batch), terminal, route, c.body, now);
      AddAllKeepsBatches(db', batches, batch, terminal, route, candidates[1..], now);
    }
  }

  lemma DrawIdKeepsInv(db: Db)
    requires Inv(db)
    ensures Inv(db.(nextId := db.nextId + 1))
    ensures forall origin :: Queued(db.(nextId := db.nextId + 1), origin) == Queued(db, origin)
  {
    hide Spent;
    var db' := db.(nextId := db.nextId + 1);
    UniqueEventsFrame(db, db');
    ArchiveKeepsInv(db, db');
    forall origin ensures Queued(db', origin) == Queued(db, origin) {
      assert forall d :: Carries(db', d, origin) == Carries(db, d, origin);
    }
  }

  lemma RecordBatchUnique(db: Db, b: nat, batch: Batch)
    requires Unique(db) && forall k :: k in db.batches ==> db.batches[k].token != batch.token
    ensures Unique(db.(batches := db.batches[b := batch]))
  {
    hide UniqueEvents;
    UniqueEventsFrame(db, db.(batches := db.batches[b := batch]));
  }

  /** A batch may be recorded once everything it lists is queued, provided no earlier batch listed the same. */
  lemma RecordBatchKeepsInv(db: Db, b: nat, batch: Batch)
    requires Inv(db) && b < db.nextId && b !in db.batches && Spent(db, batch.token)
    requires forall k :: k in db.batches ==> db.batches[k].token != batch.token
    ensures Inv(db.(batches := db.batches[b := batch]))
  {
    hide MakePicture, Unique, Spent;
    var db' := db.(batches := db.batches[b := batch]);
    RecordBatchUnique(db, b, batch);
    forall k | k in db'.batches ensures Spent(db', db'.batches[k].token) {
      assert Spent(db, db'.batches[k].token) by { InvParts(db, k); }
      SpentFrame(db, db', db'.batches[k].token);
    }
    forall d | d in db'.deliveries ensures DeliveryOk(db', d) {
      assert DeliveryOk(db, d);
    }
    forall a | a in db'.attachments ensures AttachmentOk(db', a) {
      assert AttachmentOk(db, a);
      SamePicture(db, db', db.attachments[a].parent);
    }
  }

  /** An accepted token was never accepted before. */
  lemma AcceptedIsUnspent(db: Db, terminal: Serial, from: int, until: int, token: Backfill.Preview)
    requires Inv(db) && terminal in db.routes && token.eligible > 0
    requires Backfill.IsPreview(token, Rows(db, terminal, from, until), terminal, db.routes[terminal], from, until)
    ensures token.candidates != [] && !Spent(db, token)
    ensures forall k :: k in db.batches ==> db.batches[k].token != token
  {
    hide Queued, Rows, Backfill.AreIdentities, Unique, DeliveryOk, AttachmentOk;
    PreviewIsReady(db, terminal, from, until, token);
    assert Ready(db, terminal, token.candidates[0]);
    forall k | k in db.batches ensures db.batches[k].token != token {
      assert Spent(db, db.batches[k].token);
    }
  }

  lemma BackfillKeepsInv(db: Db, terminal: Serial, from: int, until: int, token: Backfill.Preview, now: int)
    requires Inv(db) && QueueBackfill(db, terminal, from, until, token, now).Ok?
    ensures Inv(QueueBackfill(db, terminal, from, until, token, now).value)
    ensures var after := QueueBackfill(db, terminal, from, until, token, now).value;
            && Spent(after, token) && after.events == db.events && after.records == db.records
            && after.routes == db.routes
            && forall origin :: Queued(after, origin) <==> Queued(db, origin) || Lists(token.candidates, origin)
  {
    hide Rows, Backfill.IsPreview, Queued, Unique, DeliveryOk, AttachmentOk, Lists;
    var drawn := db.(nextId := db.nextId + 1);
    var batches := db.batches[db.nextId := Batch(terminal, token)];
    DrawIdKeepsInv(db);
    AcceptedIsUnspent(db, terminal, from, until, token);
    PreviewIsReady(db, terminal, from, until, token);
    forall i | 0 <= i < |token.candidates| ensures Ready(drawn, terminal, token.candidates[i]) {
      assert Ready(db, terminal, token.candidates[i]);
      OriginStays(db, drawn, OriginOf(token.candidates[i]), terminal, token.candidates[i].body);
    }
    AddAllKeepsInv(drawn, db.nextId, terminal, token.route, token.candidates, now);
    AddAllKeepsBatches(drawn, batches, db.nextId, terminal, token.route, token.candidates, now);
    var added := AddAll(drawn, db.nextId, terminal, token.route, token.candidates, now);
    AllListed(added, token);
    RecordBatchKeepsInv(added, db.nextId, Batch(terminal, token));
    SpentStays(added, batches, token);
    assert drawn.(batches := batches) == db.(batches := batches, nextId := db.nextId + 1);
    forall origin ensures Queued(added.(batches := batches), origin) == Queued(added, origin) {
      SameQueue(added, added.(batches := batches), origin);
    }
  }

  lemma AllListed(db: Db, token: Backfill.Preview)
    requires token.candidates != [] && forall origin :: Lists(token.candidates, origin) ==> Queued(db, origin)
    ensures Spent(db, token)
  {
    hide Queued;
    forall i | 0 <= i < |token.candidates| ensures Queued(db, OriginOf(token.candidates[i])) {
      assert Lists(token.candidates, OriginOf(token.candidates[i]));
    }
  }

  lemma SameQueue(db: Db, db': Db, origin: Origin)
    requires db'.deliveries == db.deliveries
    ensures Queued(db', origin) == Queued(db, origin)
  {
    assert forall d :: Carries(db', d, origin) == Carries(db, d, origin);
  }

  lemma SpentStays(db: Db, batches: map<nat, Batch>, token: Backfill.Preview)
    requires Spent(db, token)
    ensures Spent(db.(batches := batches), token)
  {
    SpentFrame(db, db.(batches := batches), token);
  }

  // ----- Picture backfills ---------------------------------------------------

  lemma OneBound(db: Db, terminal: Serial, asked: int, through: int)
    requires Through(db, terminal, asked, through)
    ensures forall other :: Through(db, terminal, asked, other) ==> other == through
  {
  }

  lemma {:induction false} AddPicturesKeepsInv(db: Db, entries: seq<PictureEntry>, now: int)
    requires Inv(db)
    requires forall i :: 0 <= i < |entries| ==>
               && entries[i].delivery in db.deliveries && db.deliveries[entries[i].delivery].terminal in db.routes
               && db.deliveries[entries[i].delivery].work.status.Delivered?
               && !HasPicture(db, entries[i].delivery)
    requires forall i, j :: 0 <= i < j < |entries| ==> entries[i].delivery != entries[j].delivery
    ensures Inv(AddPictures(db, entries, now))
    decreases |entries|
  {
    hide Inv;
    if entries != [] {
      var d, rest := entries[0].delivery, entries[1..];
      var db' := db.(attachments := db.attachments[db.nextId := Attachment(d, None, NewWork(now))],
                     nextId := db.nextId + 1);
      AddPictureKeepsInv(db, d, now);
      forall i | 0 <= i < |rest| ensures !HasPicture(db', rest[i].delivery) {
        assert rest[i] == entries[i + 1];
      }
      AddPicturesKeepsInv(db', rest, now);
    }
  }

  lemma PicturesKeepInv(db: Db, terminal: Serial, asked: int, token: PictureToken, now: int)
    requires Inv(db) && QueuePictures(db, terminal, asked, token, now).Ok?
    ensures Inv(QueuePictures(db, terminal, asked, token, now).value)
  {
    hide Inv, InOrder, Through;
    var ids := InOrder(PicturelessIds(db, terminal, token.through));
    forall i | 0 <= i < |ids| ensures Pictureless(db, ids[i], terminal,
                                                  token.through) && token.entries[i].delivery == ids[i] {
      assert ids[i] in ids;
    }
    AddPicturesKeepsInv(db, token.entries, now);
  }

  // ----- Every step ----------------------------------------------------------

  lemma ImportKeepsInv(db: Db, record: RetainedEvent)
    requires Inv(db)
    ensures Inv(Import(db, record))
  {
    hide Inv, UniqueEvents;
    InvArchive(db);
    var db' := Import(db, record);
    UniqueEventsFrame(db, db');
    ArchiveKeepsInv(db, db');
  }

  lemma ReprojectKeepsArchive(db: Db, id: nat, projection: Projection)
    requires ArchiveOk(db)
    ensures ArchiveOk(Reproject(db, id, projection))
  {
  }

  lemma ReprojectKeepsInv(db: Db, id: nat, projection: Projection)
    requires Inv(db)
    ensures Inv(Reproject(db, id, projection))
  {
    hide Inv, UniqueEvents, ArchiveOk;
    if id in db.events {
      InvArchive(db);
      var db' := Reproject(db, id, projection);
      assert ArchiveOk(db') by { ReprojectKeepsArchive(db, id, projection); }
      UniqueEventsFrame(db, db');
      ArchiveKeepsInv(db, db');
    }
  }

  lemma TerminalKeepsInv(db: Db, terminal: Serial)
    requires Inv(db)
    ensures Inv(db.(terminals := db.terminals + {terminal}))
  {
    hide Inv, UniqueEvents;
    InvArchive(db);
    var db' := db.(terminals := db.terminals + {terminal});
    UniqueEventsFrame(db, db');
    ArchiveKeepsInv(db, db');
  }

  lemma FinishKeepsInv(db: Db, item: Item, attempts: nat, verdict: Verdict, next: int)
    requires Inv(db)
    ensures Finish(db, item, attempts, verdict, next).Ok? ==> Inv(Finish(db, item, attempts, verdict, next).value)
  {
    hide Spent, MakePicture, Unique;
    if Finish(db, item, attempts, verdict, next).Ok? {
      InvParts(db, item.id);
      WorkKeepsInv(db, item, Settle(WorkOf(db, item), verdict, next));
    }
  }

  lemma RetryKeepsInv(db: Db, item: Item, now: int)
    requires Inv(db)
    ensures Retry(db, item, now).Ok? ==> Inv(Retry(db, item, now).value)
  {
    hide Spent, MakePicture, Unique;
    if Retry(db, item, now).Ok? {
      InvParts(db, item.id);
      WorkKeepsInv(db, item, Revive(WorkOf(db, item), now));
    }
  }

  lemma ClaimNextTakes(db: Db, queue: Queue, locked: set<nat>, now: int, id: nat)
    requires Lowest(id, Candidates(db, queue, locked, now))
    ensures Claimable(db, ItemOf(queue, id), now)
    ensures ClaimNext(db, queue, locked, now)
         == match ClaimItem(db, ItemOf(queue, id), now) case Ok(claim) => Ok(Some(claim)) case Err(e) => Err(e)
  {
    hide Claimable;
    forall k | Lowest(k, Candidates(db, queue, locked, now)) ensures k == id {
    }
  }

  lemma ClaimKeepsInv(db: Db, queue: Queue, locked: set<nat>, now: int)
    requires Inv(db)
    ensures ClaimNext(db, queue, locked, now).Ok?
    ensures ClaimNext(db, queue, locked, now).value.Some? ==> Inv(ClaimNext(db, queue, locked, now).value.value.db)
  {
    hide Inv, Claimable, ClaimItem;
    forall id | id in Candidates(db, queue, locked, now)
      ensures ClaimItem(db, ItemOf(queue, id), now).Ok? && Inv(ClaimItem(db, ItemOf(queue, id), now).value.db)
    {
      ClaimItemKeepsInv(db, ItemOf(queue, id), now);
    }
  }

  lemma ApplyKeepsInv(db: Db, step: Step)
    requires Inv(db)
    ensures Inv(Apply(db, step))
  {
    hide Inv, Ingest, Import, Reproject, SaveRoute, DeleteRoute, ClaimNext, Finish, Retry, QueueBackfill, QueuePictures;
    match step
    case StepTerminal(t) => TerminalKeepsInv(db, t);
    case StepIngest(events, now) => IngestKeepsInv(db, events, now);
    case StepImport(record) => ImportKeepsInv(db, record);
    case StepReproject(id, projection) => ReprojectKeepsInv(db, id, projection);
    case StepSaveRoute(t, route) => RouteStepsKeepInv(db, t, route);
    case StepDeleteRoute(t) => RouteStepsKeepInv(db, t, Route("", "", false));
    case StepClaim(queue, locked, now) => ClaimKeepsInv(db, queue, locked, now);
    case StepFinish(item, attempts, verdict, next) => FinishKeepsInv(db, item, attempts, verdict, next);
    case StepRetry(item, now) => RetryKeepsInv(db, item, now);
    case StepBackfill(t, from, until, token, now) =>
      if QueueBackfill(db, t, from, until, token, now).Ok? {
        BackfillKeepsInv(db, t, from, until, token, now);
      }
    case StepPictures(t, asked, token, now) =>
      if QueuePictures(db, t, asked, token, now).Ok? {
        PicturesKeepInv(db, t, asked, token, now);
      }
  }

  /**
   A database of the version before pictures: its rows satisfy the keys and references of the schema, unfinished
   deliveries have a route, what its batches listed is queued, and the table of pictures is new.
   */
  ghost predicate Initial(db: Db) {
    && db.attachments == map[] && ArchiveOk(db) && Unique(db)
    && (forall d {:trigger DeliveryOk(db, d)} :: d in db.deliveries ==> DeliveryOk(db, d))
    && (forall b {:trigger Spent(db, db.batches[b].token)} :: b in db.batches ==> Spent(db, db.batches[b].token))
  }

  lemma InitialInv(db: Db)
    requires Initial(db)
    ensures Inv(db)
  {
  }

  lemma EmptyInitial()
    ensures Initial(EMPTY) && Inv(EMPTY)
  {
  }

  lemma {:induction false} ExecKeepsInv(db: Db, steps: seq<Step>)
    requires Inv(db)
    ensures Inv(Exec(db, steps))
    decreases |steps|
  {
    hide Inv, Apply;
    if steps != [] {
      ApplyKeepsInv(db, steps[0]);
      ExecKeepsInv(Apply(db, steps[0]), steps[1..]);
    }
  }
}
