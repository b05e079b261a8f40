/**
 The outbox transactions as the code performs them: rows selected, inserted and
 updated one after the other, in loops, with the tables rolled back when a
 statement fails. Each commits exactly what OutboxModel says and keeps the
 invariant.
 */
module OutboxStore {
  import opened Wrappers
  import opened Ordering
  import opened Terminals
  import opened Messages
  import opened OutboxInvariant
  import M = OutboxModel
  import Backfill

  class Outbox {
    var terminals: set<Serial>
    var events: map<nat, M.DeviceEvent>
    var records: map<nat, M.RetainedEvent>
    var routes: map<Serial, Route>
    var deliveries: map<nat, M.Delivery>
    var attachments: map<nat, M.Attachment>
    var batches: map<nat, M.Batch>
    var nextId: nat

    function View(): M.Db
      reads this
    {
      M.Db(terminals, events, records, routes, deliveries, attachments, batches, nextId)
    }

    ghost predicate Valid()
      reads this
    {
      Inv(View())
    }

    constructor ()
      ensures View() == M.EMPTY && Valid()
    {
      terminals, events, records, routes := {}, map[], map[], map[];
      deliveries, attachments, batches, nextId := map[], map[], map[], 1;
    }

    /** Over the tables of the version before pictures. */
    constructor Inherit(db: M.Db)
      requires Initial(db)
      ensures View() == db && Valid()
    {
      terminals, events, records, routes := db.terminals, db.events, db.records, db.routes;
      deliveries, attachments, batches, nextId := db.deliveries, db.attachments, db.batches, db.nextId;
      new;
      InitialInv(db);
    }

    // ----- Routes ------------------------------------------------------------

    method SaveRoute(terminal: Serial, route: Route) returns (error: Option<M.Error>)
      requires Valid()
      modifies this`routes
      ensures Valid()
      ensures match M.SaveRoute(old(View()), terminal, route)
              case Ok(next) => error.None? && View() == next
              case Err(e) => error == Some(e) && View() == old(View())
    {
      RouteStepsKeepInv(View(), terminal, route);
      if terminal !in terminals {
        return Some(M.UnknownTerminal);
      }
      if terminal in routes && (routes[terminal].endpoint != route.endpoint || routes[terminal].key != route.key) {
        var db := View();
        if exists d :: d in deliveries && M.Busy(db, d, terminal) {
          return Some(M.RouteBusy);
        }
      }
      routes := routes[terminal := route];
      return None;
    }

    method DeleteRoute(terminal: Serial) returns (error: Option<M.Error>)
      requires Valid()
      modifies this`routes
      ensures Valid()
      ensures match M.DeleteRoute(old(View()), terminal)
              case Ok(next) => error.None? && View() == next
              case Err(e) => error == Some(e) && View() == old(View())
    {
      RouteStepsKeepInv(View(), terminal, Route("", "", false));
      if terminal !in terminals {
        return Some(M.UnknownTerminal);
      }
      if terminal !in routes {
        return Some(M.NoRoute);
      }
      var db := View();
      if exists d :: d in deliveries && M.Open(db, d, terminal) {
        return Some(M.RouteUnfinished);
      }
      routes := routes - {terminal};
      return None;
    }

    // ----- Leases ------------------------------------------------------------

    /** The lowest claimable row gets a lease; among claimable rows none is lower. */
    method Claim(queue: M.Queue, locked: set<nat>, now: int) returns (ticket: Option<M.Ticket>)
      requires Valid()
      modifies this`deliveries, this`attachments
      ensures Valid()
      ensures var claim := M.ClaimNext(old(View()), queue, locked, now);
              && claim.Ok?
              && match claim.value
                 case Some(c) => View() == c.db && ticket == Some(c.ticket)
                 case None => View() == old(View()) && ticket.None?
    {
      ClaimKeepsInv(View(), queue, locked, now);
      hide Inv;
      var candidates := M.Candidates(View(), queue, locked, now);
      if candidates == {} {
        return None;
      }
      var id := SelectLowest(candidates);
      ClaimNextTakes(View(), queue, locked, now, id);
      ClaimItemKeepsInv(View(), M.ItemOf(queue, id), now);
      if queue.Events? {
        var t := LeaseEvent(id, now);
        return Some(t);
      }
      var t := LeasePicture(id, now);
      return Some(t);
    }

    method LeaseEvent(id: nat, now: int) returns (ticket: M.Ticket)
      requires M.Claimable(View(), M.EventItem(id), now)
      modifies this`deliveries
      ensures M.ClaimItem(old(View()), M.EventItem(id), now) == Ok(M.Claim(View(), ticket))
    {
      var d := deliveries[id];
      deliveries := deliveries[id := d.(work := d.work.(status := M.Sending, attempts := d.work.attempts + 1,
                                                        leaseUntil := Some(now + M.LEASE)))];
      ticket := M.Ticket(M.EventItem(id), d.work.attempts + 1, d.terminal, d.endpoint, d.key, M.EventBody(d.body));
    }

    method LeasePicture(id: nat, now: int) returns (ticket: M.Ticket)
      requires M.Claimable(View(), M.PictureItem(id), now) && M.ClaimItem(View(), M.PictureItem(id), now).Ok?
      modifies this`attachments
      ensures M.ClaimItem(old(View()), M.PictureItem(id), now) == Ok(M.Claim(View(), ticket))
    {
      var a := attachments[id];
      var d := deliveries[a.parent];
      if a.body.None? {
        attachments := attachments[id := attachments[id].(body := M.MakePicture(View(), d))];
      }
      attachments := attachments[id := attachments[id].(work := M.Take(a.work, now))];
      ticket := M.Ticket(M.PictureItem(id), a.work.attempts + 1, d.terminal, d.endpoint, d.key,
                         M.PictureBody(attachments[id].body.value));
      assert attachments == old(attachments)[id := attachments[id]];
    }

    method Update(item: M.Item, w: M.Work)
      requires M.Exists(View(), item)
      modifies this`deliveries, this`attachments
      ensures View() == M.SetWork(old(View()), item, w)
    {
      match item {
        case EventItem(id) => deliveries := deliveries[id := deliveries[id].(work := w)];
        case PictureItem(id) => attachments := attachments[id := attachments[id].(work := w)];
      }
    }

    method Finish(item: M.Item, attempts: nat, verdict: M.Verdict, next: int) returns (error: Option<M.Error>)
      requires Valid()
      modifies this`deliveries, this`attachments
      ensures Valid()
      ensures match M.Finish(old(View()), item, attempts, verdict, next)
              case Ok(after) => error.None? && View() == after
              case Err(e) => error == Some(e) && View() == old(View())
    {
      FinishKeepsInv(View(), item, attempts, verdict, next);
      hide Inv;
      if !M.Exists(View(), item) {
        return Some(M.LeaseLost);
      }
      var w := M.WorkOf(View(), item);
      if w.attempts != attempts || !w.status.Sending? {
        return Some(M.LeaseLost);
      }
      Update(item, M.Settle(w, verdict, next));
      return None;
    }

    method Retry(item: M.Item, now: int) returns (error: Option<M.Error>)
      requires Valid()
      modifies this`deliveries, this`attachments
      ensures Valid()
      ensures match M.Retry(old(View()), item, now)
              case Ok(after) => error.None? && View() == after
              case Err(e) => error == Some(e) && View() == old(View())
    {
      RetryKeepsInv(View(), item, now);
      hide Inv;
      if !M.Exists(View(), item) {
        return Some(M.NotFailed);
      }
      var w := M.WorkOf(View(), item);
      if !w.status.Failed? {
        return Some(M.NotFailed);
      }
      Update(item, w.(status := M.Pending, nextAttemptAt := now));
      return None;
    }

    // ----- Ingestion ---------------------------------------------------------

    method AddDelivery(origin: M.Origin, batch: Option<nat>, terminal: Serial, route: Route, body: Message, now: int)
      modifies this`deliveries, this`attachments, this`nextId
      ensures View() == M.AddDelivery(old(View()), origin, batch, terminal, route, body, now)
    {
      var d := nextId;
      deliveries := deliveries[d := M.Delivery(origin, batch, terminal, route.endpoint, route.key, body,
                                               M.NewWork(now))];
      nextId := nextId + 1;
      AddAttachment(d, now);
    }

    method AddAttachment(parent: nat, now: int)
      modifies this`attachments, this`nextId
      ensures attachments == old(attachments)[old(nextId) := M.Attachment(parent, None, M.NewWork(now))]
      ensures nextId == old(nextId) + 1
    {
      attachments := attachments[nextId := M.Attachment(parent, None, M.NewWork(now))];
      nextId := nextId + 1;
    }

    method InsertEvent(e: M.DeviceEvent, now: int) returns (error: Option<M.Error>)
      modifies this`events, this`deliveries, this`attachments, this`nextId
      ensures match M.InsertEvent(old(View()), e, now)
              case Ok(next) => error.None? && View() == next
              case Err(f) => error == Some(f)
    {
      if e.terminal !in terminals || !M.ValidFormat(e.payload.format) {
        return Some(M.ConstraintViolated);
      }
      if M.Archived(View(), e.terminal, e.vendorId) {
        return None;
      }
      hide M.Archived;
      var id := nextId;
      events := events[id := e];
      nextId := nextId + 1;
      if M.Qualifies(e) && e.terminal in routes && routes[e.terminal].enabled {
        AddDelivery(M.Live(id), None, e.terminal, routes[e.terminal], M.LiveMessage(e), now);
      }
      return None;
    }

    method InsertEach(batch: seq<M.DeviceEvent>, now: int) returns (error: Option<M.Error>)
      modifies this`events, this`deliveries, this`attachments, this`nextId
      ensures match M.Ingest(old(View()), batch, now)
              case Ok(next) => error.None? && View() == next
              case Err(e) => error == Some(e)
    {
      hide M.InsertEvent;
      error := None;
      var i := 0;
      while i < |batch| && error.None?
        invariant 0 <= i <= |batch|
        invariant match error
                  case None => M.Ingest(View(), batch[i..], now) == M.Ingest(old(View()), batch, now)
                  case Some(e) => M.Ingest(old(View()), batch, now) == Err(e)
        decreases |batch| - i, error.None?
      {
        assert batch[i..][0] == batch[i] && batch[i..][1..] == batch[i + 1..];
        error := InsertEvent(batch[i], now);
        if error.None? {
          i := i + 1;
        }
      }
      assert error.None? ==> batch[i..] == [];
    }

    /** All events of a request, in order, or none of them. */
    method Ingest(batch: seq<M.DeviceEvent>, now: int) returns (error: Option<M.Error>)
      requires Valid()
      modifies this`events, this`deliveries, this`attachments, this`nextId
      ensures Valid()
      ensures match M.Ingest(old(View()), batch, now)
              case Ok(next) => error.None? && View() == next
              case Err(e) => error == Some(e) && View() == old(View())
    {
      IngestKeepsInv(View(), batch, now);
      hide Inv, M.Ingest;
      var savedEvents, savedDeliveries, savedAttachments, savedId := events, deliveries, attachments, nextId;
      error := InsertEach(batch, now);
      if error.Some? {
        events, deliveries, attachments, nextId := savedEvents, savedDeliveries, savedAttachments, savedId;
      }
    }

    // ----- Backfills ---------------------------------------------------------

    /** Both archives in the range, as the query returns them. */
    method SelectRows(terminal: Serial, from: int, until: int) returns (rows: seq<Backfill.Row>)
      ensures rows == M.Rows(View(), terminal, from, until)
    {
      hide M.Queued, M.LiveRow, M.RecordRow, InOrder;
      var db := View();
      var live := SortIds(M.LiveIds(db, terminal, from, until));
      var stored := SortIds(M.RecordIds(db, terminal, from, until));
      rows := [];
      var i := 0;
      while i < |live|
        invariant 0 <= i <= |live| && |rows| == i
        invariant forall k :: 0 <= k < i ==> live[k] in live && rows[k] == M.LiveRow(db, live[k])
      {
        assert live[i] in live;
        rows := rows + [M.LiveRow(db, live[i])];
        i := i + 1;
      }
      var j := 0;
      while j < |stored|
        invariant 0 <= j <= |stored| && |rows| == |live| + j
        invariant forall k :: 0 <= k < |live| ==> live[k] in live && rows[k] == M.LiveRow(db, live[k])
        invariant forall k :: 0 <= k < j ==> stored[k] in stored && rows[|live| + k] == M.RecordRow(db, stored[k])
      {
        assert stored[j] in stored;
        rows := rows + [M.RecordRow(db, stored[j])];
        j := j + 1;
      }
    }

    method QueueBackfill(terminal: Serial, from: int, until: int, token: Backfill.Preview, now: int)
      returns (error: Option<M.Error>)
      requires Valid()
      modifies this
      ensures Valid()
      ensures match M.QueueBackfill(old(View()), terminal, from, until, token, now)
              case Ok(next) => error.None? && View() == next
              case Err(e) => error == Some(e) && View() == old(View())
    {
      hide Inv, M.Rows, M.AddAll, Backfill.IsPreview;
      if terminal !in terminals {
        return Some(M.UnknownTerminal);
      }
      if terminal !in routes {
        return Some(M.NoRoute);
      }
      if !routes[terminal].enabled {
        return Some(M.RouteDisabled);
      }
      var rows := SelectRows(terminal, from, until);
      RowsAreRows(View(), terminal, from, until);
      var preview := Backfill.MakePreview(rows, terminal, routes[terminal], from, until);
      if preview.Err? {
        return Some(M.TooLarge);
      }
      if preview.value != token {
        OnlyOnePreview(preview.value, token, rows, terminal, routes[terminal], from, until);
        return Some(M.PreviewChanged);
      }
      if token.eligible == 0 {
        return Some(M.NothingEligible);
      }
      BackfillKeepsInv(View(), terminal, from, until, token, now);
      QueueCandidates(terminal, preview.value, token, now);
      return None;
    }

    method QueueCandidates(terminal: Serial, preview: Backfill.Preview, token: Backfill.Preview, now: int)
      modifies this`batches, this`deliveries, this`attachments, this`nextId
      ensures var begun := old(View()).(batches := old(batches)[old(nextId) := M.Batch(terminal, token)],
                                        nextId := old(nextId) + 1);
              View() == M.AddAll(begun, old(nextId), terminal, preview.route, preview.candidates, now)
    {
      var batch := nextId;
      batches := batches[batch := M.Batch(terminal, token)];
      nextId := nextId + 1;
      ghost var begun := View();
      var q := preview.candidates;
      var i := 0;
      while i < |q|
        invariant 0 <= i <= |q|
        invariant terminals == old(terminals) && events == old(events) && records == old(records)
        invariant routes == old(routes)
        invariant M.AddAll(View(), batch, terminal, preview.route, q[i..], now)
               == M.AddAll(begun, batch, terminal, preview.route, q, now)
      {
        assert q[i..][0] == q[i] && q[i..][1..] == q[i + 1..];
        AddDelivery(M.OriginOf(q[i]), Some(batch), terminal, preview.route, q[i].body, now);
        i := i + 1;
      }
      assert q[i..] == [];
    }

    /** The newest delivery of the terminal, or 0. */
    method Newest(terminal: Serial) returns (newest: int)
      ensures M.NewestOf(View(), terminal, newest)
    {
      newest := 0;
      var rest := deliveries.Keys;
      while rest != {}
        invariant rest <= deliveries.Keys && newest >= 0
        invariant newest == 0 || exists k :: k in deliveries && k == newest && deliveries[k].terminal == terminal
        invariant forall k :: k in deliveries && k !in rest && deliveries[k].terminal == terminal ==> k <= newest
        decreases |rest|
      {
        var d :| d in rest;
        if deliveries[d].terminal == terminal && d > newest {
          newest := d;
        }
        rest := rest - {d};
      }
    }

    method SelectPictureless(terminal: Serial, through: int) returns (entries: seq<M.PictureEntry>)
      ensures var ids := InOrder(M.PicturelessIds(View(), terminal, through));
              |entries| == |ids|
              && forall i :: 0 <= i < |ids| ==>
                   && ids[i] in deliveries
                   && entries[i] == M.PictureEntry(ids[i], deliveries[ids[i]].endpoint, deliveries[ids[i]].key)
    {
      hide InOrder, M.HasPicture;
      var ids := SortIds(M.PicturelessIds(View(), terminal, through));
      entries := [];
      var i := 0;
      while i < |ids|
        invariant 0 <= i <= |ids| && |entries| == i
        invariant forall k :: 0 <= k < i ==>
                    && ids[k] in deliveries
                    && entries[k] == M.PictureEntry(ids[k], deliveries[ids[k]].endpoint, deliveries[ids[k]].key)
      {
        assert ids[i] in ids;
        entries := entries + [M.PictureEntry(ids[i], deliveries[ids[i]].endpoint, deliveries[ids[i]].key)];
        i := i + 1;
      }
    }

    method QueuePictures(terminal: Serial, asked: int, token: M.PictureToken, now: int) returns (error: Option<M.Error>)
      requires Valid()
      modifies this`attachments, this`nextId
      ensures Valid()
      ensures match M.QueuePictures(old(View()), terminal, asked, token, now)
              case Ok(next) => error.None? && View() == next
              case Err(e) => error == Some(e) && View() == old(View())
    {
      hide Inv, InOrder, M.PicturelessIds, M.AddPictures, M.NewestOf;
      if terminal !in terminals {
        return Some(M.UnknownTerminal);
      }
      if terminal !in routes {
        return Some(M.NoRoute);
      }
      if !routes[terminal].enabled {
        return Some(M.RouteDisabled);
      }
      var through := asked;
      if through == 0 {
        through := Newest(terminal);
      }
      var entries := SelectPictureless(terminal, through);
      OneBound(View(), terminal, asked, through);
      if |entries| > M.MAX_PICTURES {
        return Some(M.TooLarge);
      }
      if token != M.PictureToken(terminal, through, entries) {
        assert M.IsPicturePreview(View(), token, terminal, asked) ==> token.entries == entries;
        return Some(M.PreviewChanged);
      }
      if entries == [] {
        return Some(M.NothingEligible);
      }
      PicturesKeepInv(View(), terminal, asked, token, now);
      AddEach(entries, now);
      return None;
    }

    method AddEach(entries: seq<M.PictureEntry>, now: int)
      modifies this`attachments, this`nextId
      ensures View() == M.AddPictures(old(View()), entries, now)
    {
      var i := 0;
      while i < |entries|
        invariant 0 <= i <= |entries|
        invariant M.AddPictures(View(), entries[i..], now) == M.AddPictures(old(View()), entries, now)
      {
        assert entries[i..][0] == entries[i] && entries[i..][1..] == entries[i + 1..];
        AddAttachment(entries[i].delivery, now);
        i := i + 1;
      }
      assert entries[i..] == [];
    }
  }

  method SelectLowest(ids: set<nat>) returns (lowest: nat)
    requires ids != {}
    ensures M.Lowest(lowest, ids)
  {
    lowest :| lowest in ids;
    var rest := ids - {lowest};
    while rest != {}
      invariant rest < ids && lowest in ids && forall k :: k in ids && k !in rest ==> lowest <= k
      decreases |rest|
    {
      var id :| id in rest;
      if id < lowest {
        lowest := id;
      }
      rest := rest - {id};
    }
  }

  lemma OnlyOnePreview(p: Backfill.Preview, token: Backfill.Preview, rows: seq<Backfill.Row>, terminal: Serial,
                       route: Route,
                       from: int, until: int)
    requires Backfill.IsPreview(p, rows, terminal, route, from, until) && p != token
    ensures !Backfill.IsPreview(token, rows, terminal, route, from, until)
  {
    hide Backfill.IsPreview;
    if Backfill.IsPreview(token, rows, terminal, route, from, until) {
      Backfill.PreviewUnique(p, token, rows, terminal, route, from, until);
    }
  }
}
