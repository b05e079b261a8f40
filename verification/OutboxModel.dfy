/**
 The transactional outbox: archived device events, their attendance deliveries and
 picture deliveries, the routes they take, and historical backfills
 (internal/store/event_deliveries.go, event_attachments.go, event_backfills.go and
 InsertDeviceEventBatch in internal/store/store.go). Each transaction is one step
 that commits whole or has no effect; any number of workers interleave steps.
 */
module OutboxModel {
  import opened Wrappers
  import opened Ordering
  import opened Terminals
  import opened Messages
  import Backfill

  // ----- Rows ----------------------------------------------------------------

  datatype Payload = Payload(format: string, text: string)

  datatype Projection = Unclassified | Classified(major: int, sub: int, state: Option<string>, scan: Scan)

  datatype DeviceEvent = DeviceEvent(terminal: Serial, vendorId: string, payload: Payload, projection: Projection)

  datatype RetainedEvent = RetainedEvent(terminal: Serial, digest: string, major: int, sub: int, scan: Scan)

  datatype Status = Pending | Sending | Delivered | Failed

  /** The columns by which either queue hands out its rows. `attempts` is the generation of the lease. */
  datatype Work = Work(status: Status, attempts: nat, nextAttemptAt: int, leaseUntil: Option<int>)

  datatype Origin = Live(event: nat) | Retained(record: nat)

  datatype Delivery = Delivery(origin: Origin, batch: Option<nat>, terminal: Serial, endpoint: string, key: string,
                               body: Message, work: Work)

  /** The picture message; `taken` is the payload out of which the picture is read, if the source has one. */
  datatype Picture = Picture(source: Source, eventId: string, terminal: Serial, taken: Option<Payload>)

  datatype Attachment = Attachment(parent: nat, body: Option<Picture>, work: Work)

  datatype Batch = Batch(terminal: Serial, token: Backfill.Preview)

  /** One identity counter serves every table; only the order of identities within a table matters. */
  datatype Db = Db(terminals: set<Serial>, events: map<nat, DeviceEvent>, records: map<nat, RetainedEvent>,
                   routes: map<Serial, Route>, deliveries: map<nat, Delivery>, attachments: map<nat, Attachment>,
                   batches: map<nat, Batch>, nextId: nat)

  const EMPTY: Db := Db({}, map[], map[], map[], map[], map[], map[], 1)

  datatype Error = UnknownTerminal | ConstraintViolated | RouteBusy | RouteUnfinished | NoRoute | LeaseLost | NotFailed
                 | RouteDisabled | TooLarge | PreviewChanged | NothingEligible | EventMissing

  // ----- Leases --------------------------------------------------------------

  const LEASE := 60

  function NewWork(now: int): Work { Work(Pending, 0, now, None) }

  predicate InFlight(w: Work) { w.status.Pending? || w.status.Sending? }

  predicate Due(w: Work, now: int) {
    || (w.status.Pending? && w.nextAttemptAt <= now)
    || (w.status.Sending? && w.leaseUntil.Some? && w.leaseUntil.value <= now)
  }

  function Take(w: Work, now: int): Work {
    w.(status := Sending, attempts := w.attempts + 1, leaseUntil := Some(now + LEASE))
  }

  /** What a worker makes of the receiver's answer. */
  datatype Verdict = Accept | Postpone | Reject

  function Settle(w: Work, verdict: Verdict, next: int): Work {
    Work(match verdict case Accept => Delivered case Postpone => Pending case Reject => Failed, w.attempts, next, None)
  }

  function Revive(w: Work, now: int): Work { w.(status := Pending, nextAttemptAt := now) }

  // ----- Items of the two queues ---------------------------------------------

  datatype Item = EventItem(id: nat) | PictureItem(id: nat)

  predicate Exists(db: Db, item: Item) {
    match item case EventItem(id) => id in db.deliveries case PictureItem(id) => id in db.attachments
  }

  function WorkOf(db: Db, item: Item): Work
    requires Exists(db, item)
  {
    match item case EventItem(id) => db.deliveries[id].work case PictureItem(id) => db.attachments[id].work
  }

  function SetWork(db: Db, item: Item, w: Work): Db
    requires Exists(db, item)
  {
    match item
    case EventItem(id) => db.(deliveries := db.deliveries[id := db.deliveries[id].(work := w)])
    case PictureItem(id) => db.(attachments := db.attachments[id := db.attachments[id].(work := w)])
  }

  /** The terminal's route has this destination. */
  predicate PointsAt(db: Db, terminal: Serial, endpoint: string, key: string) {
    terminal in db.routes && db.routes[terminal].endpoint == endpoint && db.routes[terminal].key == key
  }

  predicate RouteEnabled(db: Db, terminal: Serial) { terminal in db.routes && db.routes[terminal].enabled }

  /** A picture waits until its event has been delivered. */
  predicate Claimable(db: Db, item: Item, now: int) {
    && Exists(db, item) && Due(WorkOf(db, item), now)
    && match item
       case EventItem(id) => RouteEnabled(db, db.deliveries[id].terminal)
       case PictureItem(id) =>
         var parent := db.attachments[id].parent;
         parent in db.deliveries && db.deliveries[parent].work.status.Delivered?
         && RouteEnabled(db, db.deliveries[parent].terminal)
  }

  datatype Body = EventBody(message: Message) | PictureBody(picture: Picture)

  /** What a claim hands to a worker. */
  datatype Ticket = Ticket(item: Item, attempts: nat, terminal: Serial, endpoint: string, key: string, body: Body)

  /** The picture message of a delivery, or None when the event it should come from is missing. */
  function MakePicture(db: Db, d: Delivery): Option<Picture> {
    if d.body.source.ISAPI? then Some(Picture(ISAPI, d.body.eventId, d.body.terminal, None))
    else if d.origin.Live? && d.origin.event in db.events then
      Some(Picture(PushSDK, d.body.eventId, d.body.terminal, Some(db.events[d.origin.event].payload)))
    else None
  }

  datatype Claim = Claim(db: Db, ticket: Ticket)

  /** Takes the lease of a claimable item; the body of a picture is made at its first claim. */
  function ClaimItem(db: Db, item: Item, now: int): Result<Claim, Error>
    requires Claimable(db, item, now)
  {
    match item
    case EventItem(id) =>
      var d := db.deliveries[id];
      var taken := SetWork(db, item, Take(d.work, now));
      Ok(Claim(taken, Ticket(item, d.work.attempts + 1, d.terminal, d.endpoint, d.key, EventBody(d.body))))
    case PictureItem(id) =>
      var a := db.attachments[id];
      var d := db.deliveries[a.parent];
      var made := if a.body.Some? then a.body else MakePicture(db, d);
      if made.None? then Err(EventMissing)
      else
        var taken := db.(attachments := db.attachments[id := Attachment(a.parent, made, Take(a.work, now))]);
        Ok(Claim(taken, Ticket(item, a.work.attempts + 1, d.terminal, d.endpoint, d.key, PictureBody(made.value))))
  }

  datatype Queue = Events | Pictures

  function ItemOf(queue: Queue, id: nat): Item { if queue.Events? then EventItem(id) else PictureItem(id) }

  /** The rows a claim may choose from; rows that other transactions hold are skipped. */
  function Candidates(db: Db, queue: Queue, locked: set<nat>, now: int): set<nat> {
    set id | id in (if queue.Events? then db.deliveries.Keys else db.attachments.Keys)
             && id !in locked && Claimable(db, ItemOf(queue, id), now)
  }

  ghost predicate Lowest(id: nat, s: set<nat>) { id in s && forall k :: k in s ==> id <= k }

  lemma {:induction false} LowestExists(s: set<nat>)
    requires s != {}
    ensures exists id :: Lowest(id, s)
    decreases |s|
  {
    var x :| x in s;
    if s == {x} {
      assert Lowest(x, s);
    } else {
      LowestExists(s - {x});
      var k :| Lowest(k, s - {x});
      assert forall j :: j in s ==> j == x || j in s - {x};
      assert Lowest(if x < k then x else k, s);
    }
  }

  ghost function ClaimNext(db: Db, queue: Queue, locked: set<nat>, now: int): Result<Option<Claim>, Error> {
    var candidates := Candidates(db, queue, locked, now);
    if candidates == {} then Ok(None)
    else
      LowestExists(candidates);
      var id :| Lowest(id, candidates);
      match ClaimItem(db, ItemOf(queue, id), now) case Ok(claim) => Ok(Some(claim)) case Err(e) => Err(e)
  }

  /** Only the worker that holds the current generation may report. */
  function Finish(db: Db, item: Item, attempts: nat, verdict: Verdict, next: int): Result<Db, Error> {
    if Exists(db, item) && WorkOf(db, item).attempts == attempts && WorkOf(db, item).status.Sending? then
      Ok(SetWork(db, item, Settle(WorkOf(db, item), verdict, next)))
    else Err(LeaseLost)
  }

  function Retry(db: Db, item: Item, now: int): Result<Db, Error> {
    if Exists(db, item) && WorkOf(db, item).status.Failed? then Ok(SetWork(db, item, Revive(WorkOf(db, item), now)))
    else Err(NotFailed)
  }

  // ----- Routes --------------------------------------------------------------

  predicate AttachmentBusy(db: Db, a: nat, d: nat) {
    a in db.attachments && db.attachments[a].parent == d && InFlight(db.attachments[a].work)
  }

  /** Delivery `d` of the terminal, or its picture, may still be sent without anyone asking. */
  predicate Busy(db: Db, d: nat, terminal: Serial) {
    && d in db.deliveries && db.deliveries[d].terminal == terminal
    && (InFlight(db.deliveries[d].work) || exists a :: a in db.attachments && AttachmentBusy(db, a, d))
  }

  predicate AttachmentOpen(db: Db, a: nat, d: nat) {
    a in db.attachments && db.attachments[a].parent == d && !db.attachments[a].work.status.Delivered?
  }

  predicate Open(db: Db, d: nat, terminal: Serial) {
    && d in db.deliveries && db.deliveries[d].terminal == terminal
    && (!db.deliveries[d].work.status.Delivered? || exists a :: a in db.attachments && AttachmentOpen(db, a, d))
  }

  function SaveRoute(db: Db, terminal: Serial, route: Route): Result<Db, Error> {
    if terminal !in db.terminals then Err(UnknownTerminal)
    else if terminal in db.routes
            && (db.routes[terminal].endpoint != route.endpoint || db.routes[terminal].key != route.key)
            && exists d :: d in db.deliveries && Busy(db, d, terminal) then Err(RouteBusy)
    else Ok(db.(routes := db.routes[terminal := route]))
  }

  function DeleteRoute(db: Db, terminal: Serial): Result<Db, Error> {
    if terminal !in db.terminals then Err(UnknownTerminal)
    else if terminal !in db.routes then Err(NoRoute)
    else if exists d :: d in db.deliveries && Open(db, d, terminal) then Err(RouteUnfinished)
    else Ok(db.(routes := db.routes - {terminal}))
  }

  // ----- Ingestion -----------------------------------------------------------

  predicate IsEvent(db: Db, id: nat, terminal: Serial, vendorId: string) {
    id in db.events && db.events[id].terminal == terminal && db.events[id].vendorId == vendorId
  }

  predicate Archived(db: Db, terminal: Serial, vendorId: string) {
    exists id :: id in db.events && IsEvent(db, id, terminal, vendorId)
  }

  predicate Qualifies(e: DeviceEvent) {
    e.projection.Classified? && Attendance(e.projection.major, e.projection.sub) && e.projection.state == Some("active")
  }

  function LiveMessage(e: DeviceEvent): Message
    requires e.projection.Classified?
  {
    Message(PushSDK, e.vendorId, e.terminal, e.projection.state, e.projection.scan)
  }

  /** A pending delivery to the route as it is now, and its picture. */
  function AddDelivery(db: Db, origin: Origin, batch: Option<nat>, terminal: Serial, route: Route, body: Message,
                       now: int): Db {
    var d := db.nextId;
    db.(deliveries := db.deliveries[d := Delivery(origin, batch, terminal, route.endpoint, route.key, body,
                                                  NewWork(now))],
        attachments := db.attachments[d + 1 := Attachment(d, None, NewWork(now))],
        nextId := d + 2)
  }

  function EnqueueEvent(db: Db, id: nat, now: int): Db
    requires id in db.events
  {
    var e := db.events[id];
    if Qualifies(e) && RouteEnabled(db, e.terminal) then
      AddDelivery(db, Live(id), None, e.terminal, db.routes[e.terminal], LiveMessage(e), now)
    else db
  }

  predicate ValidFormat(format: string) { format in {"jsonData", "xmlData", "boundaryData", "noData"} }

  function InsertEvent(db: Db, e: DeviceEvent, now: int): Result<Db, Error> {
    if e.terminal !in db.terminals || !ValidFormat(e.payload.format) then Err(ConstraintViolated)
    else if Archived(db, e.terminal, e.vendorId) then Ok(db)
    else Ok(EnqueueEvent(db.(events := db.events[db.nextId := e], nextId := db.nextId + 1), db.nextId, now))
  }

  function Ingest(db: Db, batch: seq<DeviceEvent>, now: int): Result<Db, Error>
    decreases |batch|
  {
    if batch == [] then Ok(db)
    else
      match InsertEvent(db, batch[0], now)
      case Err(e) => Err(e)
      case Ok(next) => Ingest(next, batch[1..], now)
  }

  /** Archive rows written by other parts of the gateway: records fetched by a sync, and revised projections. */
  function Import(db: Db, record: RetainedEvent): Db {
    if record.terminal !in db.terminals
       || exists r :: r in db.records
                       && db.records[r].terminal == record.terminal && db.records[r].digest == record.digest
    then db
    else db.(records := db.records[db.nextId := record], nextId := db.nextId + 1)
  }

  function Reproject(db: Db, id: nat, projection: Projection): Db {
    if id in db.events then db.(events := db.events[id := db.events[id].(projection := projection)]) else db
  }

  // ----- Backfills -----------------------------------------------------------

  predicate Carries(db: Db, d: nat, origin: Origin) { d in db.deliveries && db.deliveries[d].origin == origin }

  predicate Queued(db: Db, origin: Origin) {
    exists d :: d in db.deliveries && Carries(db, d, origin)
  }

  predicate Within(at: Option<int>, from: int, until: int) { at.Some? && from <= at.value < until }

  function LiveIds(db: Db, terminal: Serial, from: int, until: int): set<nat> {
    set e | e in db.events && db.events[e].terminal == terminal && Qualifies(db.events[e])
            && Within(db.events[e].projection.scan.occurredAt, from, until)
  }

  function RecordIds(db: Db, terminal: Serial, from: int, until: int): set<nat> {
    set r | r in db.records && db.records[r].terminal == terminal && Attendance(db.records[r].major, db.records[r].sub)
            && Within(db.records[r].scan.occurredAt, from, until)
  }

  function LiveRow(db: Db, id: nat): Backfill.Row
    requires id in db.events && db.events[id].projection.Classified?
  {
    Backfill.Row(id, LiveMessage(db.events[id]), Queued(db, Live(id)))
  }

  function RecordRow(db: Db, id: nat): Backfill.Row
    requires id in db.records
  {
    var r := db.records[id];
    Backfill.Row(id, Message(ISAPI, r.digest, r.terminal, None, r.scan), Queued(db, Retained(id)))
  }

  /** Both archives in the range: live events first, each in order of arrival. */
  ghost function Rows(db: Db, terminal: Serial, from: int, until: int): seq<Backfill.Row> {
    var live := InOrder(LiveIds(db, terminal, from, until));
    var records := InOrder(RecordIds(db, terminal, from, until));
    seq(|live|, i requires 0 <= i < |live| => assert live[i] in live; LiveRow(db, live[i]))
    + seq(|records|, i requires 0 <= i < |records| => assert records[i] in records; RecordRow(db, records[i]))
  }

  function OriginOf(c: Backfill.Candidate): Origin {
    if c.body.source.PushSDK? then Live(c.id) else Retained(c.id)
  }

  function AddAll(db: Db, batch: nat, terminal: Serial, route: Route, candidates: seq<Backfill.Candidate>, now: int): Db
    decreases |candidates|
  {
    if candidates == [] then db
    else
      var c := candidates[0];
      AddAll(AddDelivery(db, OriginOf(c), Some(batch), terminal, route, c.body, now), batch, terminal, route,
             candidates[1..], now)
  }

  /** The token is what the preview showed; it is accepted while that is still what a preview would show. */
  ghost function QueueBackfill(db: Db, terminal: Serial, from: int, until: int, token: Backfill.Preview,
                               now: int): Result<Db, Error> {
    if terminal !in db.terminals then Err(UnknownTerminal)
    else if terminal !in db.routes then Err(NoRoute)
    else if !db.routes[terminal].enabled then Err(RouteDisabled)
    else
      var rows := Rows(db, terminal, from, until);
      if |rows| > Backfill.MAX_ROWS then Err(TooLarge)
      else if !Backfill.IsPreview(token, rows, terminal, db.routes[terminal], from, until) then Err(PreviewChanged)
      else if token.eligible == 0 then Err(NothingEligible)
      else
        var begun := db.(batches := db.batches[db.nextId := Batch(terminal, token)], nextId := db.nextId + 1);
        Ok(AddAll(begun, db.nextId, terminal, token.route, token.candidates, now))
  }

  const MAX_PICTURES := 5000

  predicate HasPicture(db: Db, d: nat) {
    exists a :: a in db.attachments && db.attachments[a].parent == d
  }

  predicate Pictureless(db: Db, d: nat, terminal: Serial, through: int) {
    && d in db.deliveries && db.deliveries[d].terminal == terminal && d <= through
    && db.deliveries[d].work.status.Delivered? && !HasPicture(db, d)
  }

  /** Delivered events of the terminal, up to the given one, that have no picture delivery. */
  function PicturelessIds(db: Db, terminal: Serial, through: int): set<nat> {
    set d | d in db.deliveries && Pictureless(db, d, terminal, through)
  }

  datatype PictureEntry = PictureEntry(delivery: nat, endpoint: string, key: string)

  datatype PictureToken = PictureToken(terminal: Serial, through: int, entries: seq<PictureEntry>)

  predicate NewestOf(db: Db, terminal: Serial, d: int) {
    && (d == 0 || exists k :: k in db.deliveries && k == d && db.deliveries[k].terminal == terminal)
    && forall k :: k in db.deliveries && db.deliveries[k].terminal == terminal ==> k <= d
  }

  /** The bound that a preview uses: the one asked for, or the newest delivery of the terminal. */
  predicate Through(db: Db, terminal: Serial, asked: int, through: int) {
    if asked == 0 then NewestOf(db, terminal, through) else through == asked
  }

  ghost predicate IsPicturePreview(db: Db, token: PictureToken, terminal: Serial, asked: int) {
    && token.terminal == terminal && Through(db, terminal, asked, token.through)
    && var ids := InOrder(PicturelessIds(db, terminal, token.through));
       |token.entries| == |ids|
       && forall i :: 0 <= i < |ids| ==>
            && ids[i] in db.deliveries
            && token.entries[i] == PictureEntry(ids[i], db.deliveries[ids[i]].endpoint, db.deliveries[ids[i]].key)
  }

  function AddPictures(db: Db, entries: seq<PictureEntry>, now: int): Db
    decreases |entries|
  {
    if entries == [] then db
    else
      AddPictures(db.(attachments := db.attachments[db.nextId := Attachment(entries[0].delivery, None, NewWork(now))],
                      nextId := db.nextId + 1), entries[1..], now)
  }

  ghost function QueuePictures(db: Db, terminal: Serial, asked: int, token: PictureToken, now: int): Result<Db, Error> {
    if terminal !in db.terminals then Err(UnknownTerminal)
    else if terminal !in db.routes then Err(NoRoute)
    else if !db.routes[terminal].enabled then Err(RouteDisabled)
    else if exists through :: Through(db, terminal, asked, through)
                              && |InOrder(PicturelessIds(db, terminal, through))| > MAX_PICTURES then Err(TooLarge)
    else if !IsPicturePreview(db, token, terminal, asked) then Err(PreviewChanged)
    else if token.entries == [] then Err(NothingEligible)
    else Ok(AddPictures(db, token.entries, now))
  }

  // ----- Whole runs ----------------------------------------------------------

  datatype Step =
    | StepTerminal(terminal: Serial)
    | StepIngest(events: seq<DeviceEvent>, now: int)
    | StepImport(record: RetainedEvent)
    | StepReproject(id: nat, projection: Projection)
    | StepSaveRoute(terminal: Serial, route: Route)
    | StepDeleteRoute(terminal: Serial)
    | StepClaim(queue: Queue, locked: set<nat>, now: int)
    | StepFinish(item: Item, attempts: nat, verdict: Verdict, next: int)
    | StepRetry(item: Item, now: int)
    | StepBackfill(terminal: Serial, from: int, until: int, token: Backfill.Preview, now: int)
    | StepPictures(terminal: Serial, asked: int, pictures: PictureToken, now: int)

  ghost function OrElse(outcome: Result<Db, Error>, db: Db): Db {
    match outcome case Ok(next) => next case Err(_) => db
  }

  ghost function Apply(db: Db, step: Step): Db {
    match step
    case StepTerminal(t) => db.(terminals := db.terminals + {t})
    case StepIngest(events, now) => OrElse(Ingest(db, events, now), db)
    case StepImport(record) => Import(db, record)
    case StepReproject(id, projection) => Reproject(db, id, projection)
    case StepSaveRoute(t, route) => OrElse(SaveRoute(db, t, route), db)
    case StepDeleteRoute(t) => OrElse(DeleteRoute(db, t), db)
    case StepClaim(queue, locked, now) =>
      (match ClaimNext(db, queue, locked, now) case Ok(Some(claim)) => claim.db case Ok(None) => db case Err(_) => db)
    case StepFinish(item, attempts, verdict, next) => OrElse(Finish(db, item, attempts, verdict, next), db)
    case StepRetry(item, now) => OrElse(Retry(db, item, now), db)
    case StepBackfill(t, from, until, token, now) => OrElse(QueueBackfill(db, t, from, until, token, now), db)
    case StepPictures(t, asked, token, now) => OrElse(QueuePictures(db, t, asked, token, now), db)
  }

  ghost function Exec(db: Db, steps: seq<Step>): Db
    decreases |steps|
  {
    if steps == [] then db else Exec(Apply(db, steps[0]), steps[1..])
  }
}
