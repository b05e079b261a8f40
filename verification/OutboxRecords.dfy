/**
 The outbox in terms of its columns: which records a backfill queues and what the
 queued messages say, when and in which order rows are handed out, what a report
 or a retry writes, and when a route may be edited.
 */
module OutboxRecords {
  import opened Wrappers
  import opened Ordering
  import opened Terminals
  import opened Messages
  import opened OutboxModel
  import opened OutboxInvariant
  import opened OutboxTheorems
  import opened OutboxHistory
  import opened OutboxRoutes
  import Backfill

  // ----- Records fetched by a sync -------------------------------------------

  /** A record is archived as it is, under a fresh id, exactly when its terminal is known and has none of its digest. */
  lemma ImportIff(db: Db, record: RetainedEvent)
    requires Inv(db)
    ensures var after := Import(db, record);
            var unseen := && record.terminal in db.terminals
                          && forall r :: r in db.records && db.records[r].terminal == record.terminal ==>
                               db.records[r].digest != record.digest;
            && after == db.(records := after.records, nextId := after.nextId)
            && (!unseen ==> after == db)
            && (unseen ==>
                  && db.nextId !in db.records && after.records == db.records[db.nextId := record]
                  && after.nextId == db.nextId + 1)
  {
    InvArchive(db);
  }

  // ----- What a row of the preview says --------------------------------------

  /** The message tells what the record fetched by a sync says, field by field; such a record has no state. */
  predicate TellsRecord(m: Message, r: RetainedEvent) {
    && m.source == ISAPI && m.eventId == r.digest && m.terminal == r.terminal && m.state.None?
    && m.scan.occurredAt == r.scan.occurredAt && m.scan.employee == r.scan.employee
    && m.scan.name == r.scan.name && m.scan.serial == r.scan.serial
  }

  /** The message tells what the archive holds under its origin. */
  predicate Tells(m: Message, db: Db, origin: Origin) {
    match origin
    case Live(id) => id in db.events && TellsEvent(m, db.events[id])
    case Retained(id) => id in db.records && TellsRecord(m, db.records[id])
  }

  /** Every row of a preview tells its record, and knows whether a delivery carries it. */
  lemma RowsTell(db: Db, terminal: Serial, from: int, until: int, i: nat)
    requires i < |Rows(db, terminal, from, until)|
    ensures var row := Rows(db, terminal, from, until)[i];
            Tells(row.message, db, RowOrigin(row)) && row.queued == Queued(db, RowOrigin(row))
  {
    hide Queued, InOrder;
    var live := InOrder(LiveIds(db, terminal, from, until));
    var records := InOrder(RecordIds(db, terminal, from, until));
    if i < |live| {
      assert live[i] in live && Rows(db, terminal, from, until)[i] == LiveRow(db, live[i]);
    } else {
      var k := i - |live|;
      assert records[k] in records && Rows(db, terminal, from, until)[i] == RecordRow(db, records[k]);
    }
  }

  // ----- Which records a backfill queues -------------------------------------

  /** A face recognised at the active terminal within the half-open range. */
  predicate ScanInRange(db: Db, id: nat, terminal: Serial, from: int, until: int) {
    && id in db.events && db.events[id].terminal == terminal && IsScan(db.events[id])
    && db.events[id].projection.scan.occurredAt.Some?
    && from <= db.events[id].projection.scan.occurredAt.value < until
  }

  predicate RecordInRange(db: Db, id: nat, terminal: Serial, from: int, until: int) {
    && id in db.records && db.records[id].terminal == terminal
    && db.records[id].major == 5 && db.records[id].sub == 75
    && db.records[id].scan.occurredAt.Some? && from <= db.records[id].scan.occurredAt.value < until
  }

  /** The live archive holds the event of this record: same serial number, instant, person and name. */
  predicate Twins(db: Db, e: nat, id: nat, terminal: Serial, from: int, until: int)
    requires id in db.records
  {
    && ScanInRange(db, e, terminal, from, until)
    && var scan, other := db.events[e].projection.scan, db.records[id].scan;
       && Deliverable(db.events[e].vendorId, scan) && scan.serial.Some? && scan.serial == other.serial
       && scan.occurredAt == other.occurredAt && scan.employee == other.employee && scan.name == other.name
  }

  /**
   A deliverable attendance record of the terminal in the range; of two records of one event, the live one.
   */
  ghost predicate Wanted(db: Db, terminal: Serial, from: int, until: int, origin: Origin) {
    match origin
    case Live(id) =>
      ScanInRange(db, id, terminal, from, until)
      && Deliverable(db.events[id].vendorId, db.events[id].projection.scan)
    case Retained(id) =>
      && RecordInRange(db, id, terminal, from, until)
      && Deliverable(db.records[id].digest, db.records[id].scan)
      && !exists e :: Twins(db, e, id, terminal, from, until)
  }

  lemma RowInRange(db: Db, terminal: Serial, from: int, until: int, origin: Origin)
    ensures HasRow(Rows(db, terminal, from, until), origin) <==>
            match origin
            case Live(id) => ScanInRange(db, id, terminal, from, until)
            case Retained(id) => RecordInRange(db, id, terminal, from, until)
  {
    hide Rows, HasRow;
    match origin
    case Live(id) => RowsCoverRange(db, terminal, from, until, id);
    case Retained(id) => RowsCoverRange(db, terminal, from, until, id);
  }

  lemma RowOf(db: Db, terminal: Serial, from: int, until: int, origin: Origin) returns (i: nat)
    requires HasRow(Rows(db, terminal, from, until), origin)
    ensures i < |Rows(db, terminal, from, until)| && RowOrigin(Rows(db, terminal, from, until)[i]) == origin
    ensures var row := Rows(db, terminal, from, until)[i];
            Tells(row.message, db, origin) && row.queued == Queued(db, origin)
  {
    hide Rows, Queued, Tells;
    i :| 0 <= i < |Rows(db, terminal, from, until)| && RowOrigin(Rows(db, terminal, from, until)[i]) == origin;
    RowsTell(db, terminal, from, until, i);
  }

  /** The row of a record has a live twin exactly when the archive has one. */
  lemma TwinIff(db: Db, terminal: Serial, from: int, until: int, id: nat, m: Message)
    requires id in db.records && TellsRecord(m, db.records[id])
    ensures Backfill.HasLiveTwin(Rows(db, terminal, from, until), m) <==>
            exists e :: Twins(db, e, id, terminal, from, until)
  {
    hide Rows, Queued, ValidMessage, Deliverable;
    var rows := Rows(db, terminal, from, until);
    if Backfill.HasLiveTwin(rows, m) {
      var j :| 0 <= j < |rows| && Backfill.LiveTwin(rows[j], m);
      RowsTell(db, terminal, from, until, j);
      var e := rows[j].id;
      assert HasRow(rows, Live(e));
      RowInRange(db, terminal, from, until, Live(e));
      ValidIffDeliverable(rows[j].message);
      assert rows[j].message.scan == db.events[e].projection.scan;
      assert Twins(db, e, id, terminal, from, until);
    }
    if e :| Twins(db, e, id, terminal, from, until) {
      RowInRange(db, terminal, from, until, Live(e));
      var j := RowOf(db, terminal, from, until, Live(e));
      ValidIffDeliverable(rows[j].message);
      assert rows[j].message.scan == db.events[e].projection.scan;
      assert Backfill.LiveTwin(rows[j], m);
    }
  }

  /** A row is a candidate exactly when its record is wanted and no delivery carries it yet. */
  lemma CandidateIff(db: Db, terminal: Serial, from: int, until: int, i: nat)
    requires i < |Rows(db, terminal, from, until)|
    ensures var rows := Rows(db, terminal, from, until);
            Backfill.Classify(rows, rows[i]).Eligible? <==>
            Wanted(db, terminal, from, until, RowOrigin(rows[i])) && !Queued(db, RowOrigin(rows[i]))
  {
    hide Rows, Queued, ValidMessage, Deliverable, Backfill.HasLiveTwin, Twins;
    var rows := Rows(db, terminal, from, until);
    var row := rows[i];
    RowsTell(db, terminal, from, until, i);
    assert HasRow(rows, RowOrigin(row));
    RowInRange(db, terminal, from, until, RowOrigin(row));
    ValidIffDeliverable(row.message);
    match RowOrigin(row)
    case Live(id) =>
      assert row.message.scan == db.events[id].projection.scan;
    case Retained(id) =>
      assert row.message.scan == db.records[id].scan;
      TwinIff(db, terminal, from, until, id, row.message);
  }

  lemma ListedIff(db: Db, terminal: Serial, from: int, until: int, candidates: seq<Backfill.Candidate>, origin: Origin)
    requires var rows := Rows(db, terminal, from, until);
             candidates == Backfill.CandidatesOf(Backfill.Select(rows, rows, Backfill.Eligible))
    ensures Lists(candidates, origin) <==>
            Wanted(db, terminal, from, until, origin) && !Queued(db, origin)
  {
    hide Rows, Queued, Backfill.Select, Backfill.Classify, Wanted;
    var rows := Rows(db, terminal, from, until);
    RowsAreRows(db, terminal, from, until);
    if Lists(candidates, origin) {
      var k :| 0 <= k < |candidates| && OriginOf(candidates[k]) == origin;
      Backfill.Selected(rows, rows, Backfill.Eligible);
      var row := Backfill.Select(rows, rows, Backfill.Eligible)[k];
      assert row in Backfill.Select(rows, rows, Backfill.Eligible);
      var i :| 0 <= i < |rows| && rows[i] == row;
      CandidateIff(db, terminal, from, until, i);
    }
    if Wanted(db, terminal, from, until, origin) && !Queued(db, origin) {
      WantedHasRow(db, terminal, from, until, origin);
      var i := RowOf(db, terminal, from, until, origin);
      CandidateIff(db, terminal, from, until, i);
      ListedIsEligible(rows, candidates, rows[i]);
    }
  }

  lemma WantedHasRow(db: Db, terminal: Serial, from: int, until: int, origin: Origin)
    requires Wanted(db, terminal, from, until, origin)
    ensures HasRow(Rows(db, terminal, from, until), origin)
  {
    hide Rows, HasRow, Deliverable;
    RowInRange(db, terminal, from, until, origin);
  }

  /** After an accepted backfill exactly the wanted records are queued besides those that were queued before. */
  lemma BackfillQueuesWanted(db: Db, terminal: Serial, from: int, until: int, token: Backfill.Preview, now: int,
                             origin: Origin)
    requires Inv(db) && QueueBackfill(db, terminal, from, until, token, now).Ok?
    ensures Queued(QueueBackfill(db, terminal, from, until, token, now).value, origin) <==>
            Queued(db, origin) || Wanted(db, terminal, from, until, origin)
  {
    hide Inv, Rows, Queued, Lists, Wanted, AddAll, Backfill.Select, Backfill.AreIdentities, Backfill.FromSource;
    BackfillKeepsInv(db, terminal, from, until, token, now);
    ListedIff(db, terminal, from, until, token.candidates, origin);
  }

  /** A new delivery: an untried message to the terminal's route that tells its record, and an untried picture. */
  ghost predicate NewDelivery(db: Db, after: Db, d: nat, terminal: Serial, now: int)
    requires d in after.deliveries && terminal in db.routes
  {
    var delivery := after.deliveries[d];
    && Tells(delivery.body, db, delivery.origin) && delivery.terminal == terminal && delivery.batch == Some(db.nextId)
    && delivery.endpoint == db.routes[terminal].endpoint && delivery.key == db.routes[terminal].key
    && Untried(delivery.work, now)
    && exists a :: WaitingPicture(after, a, d, now)
  }

  lemma ListedTells(db: Db, terminal: Serial, from: int, until: int, candidates: seq<Backfill.Candidate>, k: nat)
    requires k < |candidates|
    requires var rows := Rows(db, terminal, from, until);
             candidates == Backfill.CandidatesOf(Backfill.Select(rows, rows, Backfill.Eligible))
    ensures Tells(candidates[k].body, db, OriginOf(candidates[k]))
  {
    hide Rows, Tells, Backfill.Select, Backfill.Classify;
    var rows := Rows(db, terminal, from, until);
    Backfill.Selected(rows, rows, Backfill.Eligible);
    var row := Backfill.Select(rows, rows, Backfill.Eligible)[k];
    assert row in Backfill.Select(rows, rows, Backfill.Eligible);
    var i :| 0 <= i < |rows| && rows[i] == row;
    RowsTell(db, terminal, from, until, i);
  }

  /** Every delivery that an accepted backfill adds. */
  lemma BackfillTells(db: Db, terminal: Serial, from: int, until: int, token: Backfill.Preview, now: int, d: nat)
    requires Inv(db) && QueueBackfill(db, terminal, from, until, token, now).Ok?
    requires d in QueueBackfill(db, terminal, from, until, token, now).value.deliveries && d !in db.deliveries
    ensures terminal in db.routes
    ensures NewDelivery(db, QueueBackfill(db, terminal, from, until, token, now).value, d, terminal, now)
  {
    hide Inv, Rows, Queued, Tells, AddAll, QueueBackfill, QueuesGrow, Backfill.IsPreview;
    var after := QueueBackfill(db, terminal, from, until, token, now).value;
    BackfillKeepsInv(db, terminal, from, until, token, now);
    BackfillQueuesExactly(db, terminal, from, until, token, now);
    var k := AddedIsListed(db, after, token.candidates, d);
    var d' := db.nextId + 1 + 2 * k;
    assert Backfilled(after, d', token.candidates[k], db.nextId, terminal, token.route, now);
    OriginOnce(after, d, d');
    assert WaitingPicture(after, d + 1, d, now);
    AcceptedCandidates(db, terminal, from, until, token, now);
    ListedTells(db, terminal, from, until, token.candidates, k);
  }

  lemma AcceptedCandidates(db: Db, terminal: Serial, from: int, until: int, token: Backfill.Preview, now: int)
    requires QueueBackfill(db, terminal, from, until, token, now).Ok?
    ensures var rows := Rows(db, terminal, from, until);
            token.candidates == Backfill.CandidatesOf(Backfill.Select(rows, rows, Backfill.Eligible))
  {
    hide Rows, AddAll, Backfill.AreIdentities, Backfill.Select, Backfill.FromSource;
  }

  lemma OriginOnce(db: Db, d: nat, d': nat)
    requires Inv(db) && d in db.deliveries && d' in db.deliveries && db.deliveries[d].origin == db.deliveries[d'].origin
    ensures d == d'
  {
    hide Spent, MakePicture, DeliveryOk, AttachmentOk;
  }

  /** A delivery that was not there before carries the origin of some candidate. */
  lemma AddedIsListed(db: Db, after: Db, candidates: seq<Backfill.Candidate>, d: nat) returns (k: nat)
    requires Inv(after) && QueuesGrow(db, after) && d in after.deliveries && d !in db.deliveries
    requires forall origin :: Queued(after, origin) <==> Queued(db, origin) || Lists(candidates, origin)
    ensures k < |candidates| && OriginOf(candidates[k]) == after.deliveries[d].origin
  {
    hide Inv;
    var origin := after.deliveries[d].origin;
    assert Carries(after, d, origin);
    if Queued(db, origin) {
      var e :| e in db.deliveries && Carries(db, e, origin);
      OriginOnce(after, d, e);
    }
    k :| 0 <= k < |candidates| && OriginOf(candidates[k]) == origin;
  }

  // ----- Which pictures a backfill queues ------------------------------------

  predicate Pictured(db: Db, d: nat) {
    exists a :: a in db.attachments && db.attachments[a].parent == d
  }

  /**
   An accepted picture backfill adds an untried picture to each delivered event of the terminal, up to the bound, that
   had none, and nothing else. Without a bound asked for, that is every delivery of the terminal.
   */
  lemma PicturesQueueWanted(db: Db, step: Step, d: nat)
    requires Inv(db) && AcceptsPictures(db, step)
    ensures var after := QueuePictures(db, step.terminal, step.asked, step.pictures, step.now).value;
            var through := step.pictures.through;
            var wanted := && d in db.deliveries && db.deliveries[d].terminal == step.terminal && d <= through
                          && db.deliveries[d].work.status.Delivered? && !Pictured(db, d);
            && (Pictured(after, d) <==> Pictured(db, d) || wanted)
            && (wanted ==> exists a :: WaitingPicture(after, a, d, step.now))
            && after.deliveries == db.deliveries && QueuesGrow(db, after)
            && (step.asked != 0 ==> through == step.asked)
            && (step.asked == 0 && d in db.deliveries && db.deliveries[d].terminal == step.terminal ==> d <= through)
  {
    hide Inv, InOrder, PicturelessIds, AddPictures, FreshIds, ArchiveStays;
    var after := QueuePictures(db, step.terminal, step.asked, step.pictures, step.now).value;
    InvFresh(db);
    PicturesAdd(db, step.terminal, step.asked, step.pictures, step.now);
    EntriesArePictureless(db, step);
    AddPicturesAreFresh(db, step.pictures.entries, step.now);
    if Pictured(after, d) && !Pictured(db, d) {
      var a :| a in after.attachments && after.attachments[a].parent == d;
      assert IsFreshPicture(after.attachments[a], step.pictures.entries, step.now);
    }
    if Pictured(db, d) {
      PictureStays(db, after, d);
    }
    if Pictureless(db, d, step.terminal, step.pictures.through) {
      assert HasPicture(after, d);
      var a :| a in after.attachments && after.attachments[a].parent == d;
      assert IsFreshPicture(after.attachments[a], step.pictures.entries, step.now);
      assert WaitingPicture(after, a, d, step.now);
    }
  }

  // ----- The life of a row ---------------------------------------------------

  /** Waiting and due, or sent to a worker whose lease is over. */
  predicate Free(w: Work, now: int) {
    || (w.status.Pending? && w.nextAttemptAt <= now)
    || (w.status.Sending? && w.leaseUntil.Some? && w.leaseUntil.value <= now)
  }

  /**
   What one step writes to a row of either queue: a claim takes a free row for 60 seconds and counts the attempt, the
   report of the current generation closes it, a retry revives a failed one, and nothing else touches it.
   */
  lemma ItemLife(db: Db, step: Step, item: Item)
    requires Inv(db) && Exists(db, item)
    ensures Exists(Apply(db, step), item)
    ensures var w, w' := WorkOf(db, item), WorkOf(Apply(db, step), item);
            if Claims(db, step, item) then
              Free(w, step.now) && w' == Work(Sending, w.attempts + 1, w.nextAttemptAt, Some(step.now + 60))
            else if step.StepFinish? && step.item == item && w.status.Sending? && w.attempts == step.attempts then
              && w'.attempts == w.attempts && w'.nextAttemptAt == step.next && w'.leaseUntil.None?
              && (w'.status.Delivered? <==> step.verdict.Accept?) && (w'.status.Pending? <==> step.verdict.Postpone?)
              && (w'.status.Failed? <==> step.verdict.Reject?)
            else if step.StepRetry? && step.item == item && w.status.Failed? then
              w' == Work(Pending, w.attempts, step.now, w.leaseUntil)
            else w' == w
  {
    hide Inv, Apply, Claims, SetWork, SameContent, ArchiveStays;
    StepItem(db, step, item);
  }

  // ----- What is handed out --------------------------------------------------

  /** Row `id` is free and its route enabled; a picture also waits for its event to be delivered. */
  predicate Waits(db: Db, queue: Queue, id: nat, now: int) {
    match queue
    case Events =>
      && id in db.deliveries && Free(db.deliveries[id].work, now)
      && db.deliveries[id].terminal in db.routes && db.routes[db.deliveries[id].terminal].enabled
    case Pictures =>
      && id in db.attachments && Free(db.attachments[id].work, now) && db.attachments[id].parent in db.deliveries
      && var event := db.deliveries[db.attachments[id].parent];
         event.work.status.Delivered? && event.terminal in db.routes && db.routes[event.terminal].enabled
  }

  /** A claim hands out the first waiting row that no other transaction holds, and always hands it out. */
  lemma ClaimTakesFirst(db: Db, step: Step, id: nat)
    requires Inv(db) && step.StepClaim?
    ensures Claims(db, step, if step.queue.Events? then EventItem(id) else PictureItem(id)) <==>
            && id !in step.locked && Waits(db, step.queue, id, step.now)
            && forall k :: k !in step.locked && Waits(db, step.queue, k, step.now) ==> id <= k
  {
    hide Inv, ClaimItem, MakePicture, Waits;
    var item := if step.queue.Events? then EventItem(id) else PictureItem(id);
    var candidates := Candidates(db, step.queue, step.locked, step.now);
    CandidatesWait(db, step.queue, step.locked, step.now);
    if Claims(db, step, item) {
      ClaimedItem(db, step, item);
    }
    if id in candidates && forall k :: k in candidates ==> id <= k {
      LowestIsClaimed(db, step, id);
    }
  }

  lemma CandidatesWait(db: Db, queue: Queue, locked: set<nat>, now: int)
    ensures forall k :: k in Candidates(db, queue, locked, now) <==> k !in locked && Waits(db, queue, k, now)
  {
  }

  lemma LowestIsClaimed(db: Db, step: Step, id: nat)
    requires Inv(db) && step.StepClaim? && Lowest(id, Candidates(db, step.queue, step.locked, step.now))
    ensures Claims(db, step, ItemOf(step.queue, id))
  {
    hide Inv, Claimable, MakePicture;
    var candidates := Candidates(db, step.queue, step.locked, step.now);
    LowestExists(candidates);
    forall k | Lowest(k, candidates) ensures k == id {
    }
    ClaimItemKeepsInv(db, ItemOf(step.queue, id), step.now);
  }

  // ----- Routes --------------------------------------------------------------

  /** Something of the terminal is on its way: an attendance message or a picture, waiting or being sent. */
  ghost predicate OnItsWay(db: Db, terminal: Serial) {
    || (exists d :: d in db.deliveries && db.deliveries[d].terminal == terminal
                    && (db.deliveries[d].work.status.Pending? || db.deliveries[d].work.status.Sending?))
    || (exists a :: a in db.attachments && db.attachments[a].parent in db.deliveries
                    && db.deliveries[db.attachments[a].parent].terminal == terminal
                    && (db.attachments[a].work.status.Pending? || db.attachments[a].work.status.Sending?))
  }

  /** Something of the terminal was not delivered, failed included. */
  ghost predicate Undelivered(db: Db, terminal: Serial) {
    || (exists d :: d in db.deliveries && db.deliveries[d].terminal == terminal
                    && !db.deliveries[d].work.status.Delivered?)
    || (exists a :: a in db.attachments && db.attachments[a].parent in db.deliveries
                    && db.deliveries[db.attachments[a].parent].terminal == terminal
                    && !db.attachments[a].work.status.Delivered?)
  }

  lemma BusyIff(db: Db, terminal: Serial)
    ensures (exists d :: d in db.deliveries && Busy(db, d, terminal)) <==> OnItsWay(db, terminal)
  {
    if a :| a in db.attachments && db.attachments[a].parent in db.deliveries
            && db.deliveries[db.attachments[a].parent].terminal == terminal && InFlight(db.attachments[a].work)
    {
      assert AttachmentBusy(db, a, db.attachments[a].parent) && Busy(db, db.attachments[a].parent, terminal);
    }
    if d :| d in db.deliveries && db.deliveries[d].terminal == terminal && InFlight(db.deliveries[d].work) {
      assert Busy(db, d, terminal);
    }
  }

  lemma OpenIff(db: Db, terminal: Serial)
    ensures (exists d :: d in db.deliveries && Open(db, d, terminal)) <==> Undelivered(db, terminal)
  {
    if a :| a in db.attachments && db.attachments[a].parent in db.deliveries
            && db.deliveries[db.attachments[a].parent].terminal == terminal
            && !db.attachments[a].work.status.Delivered?
    {
      assert AttachmentOpen(db, a, db.attachments[a].parent) && Open(db, db.attachments[a].parent, terminal);
    }
    if d :| d in db.deliveries && db.deliveries[d].terminal == terminal && !db.deliveries[d].work.status.Delivered? {
      assert Open(db, d, terminal);
    }
  }

  /**
   A route is saved, replacing that one row, unless the terminal is unknown or it would lead something on its way to
   another destination or under another key; pausing and resuming are always possible.
   */
  lemma SaveRouteIff(db: Db, terminal: Serial, route: Route)
    ensures var redirects := && terminal in db.routes
                             && (db.routes[terminal].endpoint != route.endpoint
                                 || db.routes[terminal].key != route.key);
            SaveRoute(db, terminal, route)
            == if terminal !in db.terminals then Err(UnknownTerminal)
               else if redirects && OnItsWay(db, terminal) then Err(RouteBusy)
               else Ok(db.(routes := db.routes[terminal := route]))
  {
    hide Busy, OnItsWay;
    BusyIff(db, terminal);
  }

  /** A route is deleted, that one row, exactly when everything of its terminal was delivered. */
  lemma DeleteRouteIff(db: Db, terminal: Serial)
    ensures DeleteRoute(db, terminal)
         == if terminal !in db.terminals then Err(UnknownTerminal)
            else if terminal !in db.routes then Err(NoRoute)
            else if Undelivered(db, terminal) then Err(RouteUnfinished)
            else Ok(db.(routes := db.routes - {terminal}))
  {
    hide Open, Undelivered;
    OpenIff(db, terminal);
  }
}
