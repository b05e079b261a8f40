/**
 The delivery worker (internal/delivery/worker.go): back-off, what counts as a
 receipt, what the receiver's answer means for the lease, and one tick of the
 loop that claims, sends and reports.
 */
module DeliveryWorker {
  import opened Wrappers
  import opened Messages
  import opened OutboxModel
  import opened OutboxInvariant
  import opened OutboxTheorems
  import opened OutboxStore

  // ----- Back-off ------------------------------------------------------------

  function Pow2(n: nat): (p: nat)
    ensures p >= 1
  {
    if n == 0 then 1 else 2 * Pow2(n - 1)
  }

  /** Seconds until the next attempt: five, doubled after each further attempt, five minutes at most. */
  function BackOff(attempts: int): nat {
    var raw := 5 * Pow2(if attempts < 1 then 0 else attempts - 1);
    if raw > 300 then 300 else raw
  }

  lemma {:induction false} Pow2Monotone(a: nat, b: nat)
    requires a <= b
    ensures Pow2(a) <= Pow2(b)
    decreases b
  {
    if a < b {
      Pow2Monotone(a, b - 1);
    }
  }

  lemma BackOffMonotone(a: int, b: int)
    requires a <= b
    ensures 5 <= BackOff(a) <= BackOff(b) <= 300
  {
    Pow2Monotone(if a < 1 then 0 else a - 1, if b < 1 then 0 else b - 1);
  }

  /** The doubling loop; `peak` is the largest value that the variable takes. */
  method RetryDelay(attempts: int) returns (delay: nat, ghost peak: nat)
    ensures delay == BackOff(attempts)
    ensures delay <= 300 && peak <= 320
  {
    delay, peak := 5, 5;
    var i := 1;
    while i < attempts && delay < 300
      invariant 1 <= i <= 7 && delay == 5 * Pow2(i - 1) && peak == delay <= 320
      invariant i == 1 || i <= attempts
      invariant i == 7 ==> delay == 320
      decreases 7 - i
    {
      SmallPowers();
      delay := delay * 2;
      peak := delay;
      i := i + 1;
    }
    SmallPowers();
    if attempts > i {
      Pow2Monotone(i - 1, attempts - 1);
    }
    if delay > 300 {
      delay := 300;
    }
  }

  lemma SmallPowers()
    ensures Pow2(0) == 1 && Pow2(1) == 2 && Pow2(2) == 4 && Pow2(3) == 8 && Pow2(4) == 16 && Pow2(5) == 32
    ensures Pow2(6) == 64
  {
    assert Pow2(1) == 2 * Pow2(0) && Pow2(2) == 2 * Pow2(1) && Pow2(3) == 2 * Pow2(2);
    assert Pow2(4) == 2 * Pow2(3) && Pow2(5) == 2 * Pow2(4) && Pow2(6) == 2 * Pow2(5);
  }

  // ----- Receipts ------------------------------------------------------------

  /** A value as the streaming decoder meets it. */
  datatype Json = Null | Text(text: string) | Number(number: int) | OtherValue

  /** The receiver's body as the streaming decoder reads it; Broken is where the text stops being JSON. */
  datatype Piece = Open | Close | Member(name: string, value: Json) | Other | Broken

  datatype Expected = ExpectText(text: string) | ExpectNumber(number: int)

  /** The decoder leaves a variable at its zero value when it meets null. */
  predicate Matches(value: Json, expected: Expected) {
    match expected
    case ExpectText(text) => value == Text(text) || (value.Null? && text == "")
    case ExpectNumber(number) => value == Number(number) || (value.Null? && number == 0)
  }

  /** The fields of a receipt; a picture's receipt also names the attachment. */
  function Fields(eventId: string, version: int, attachmentId: string): map<string, Expected> {
    var fields := map["schemaVersion" := ExpectNumber(version), "eventId" := ExpectText(eventId),
                      "receipt" := ExpectText("stored")];
    if attachmentId == "" then fields else fields["attachmentId" := ExpectText(attachmentId)]
  }

  /** The body is one object that lists the fields in some order, each once, each with the expected value. */
  ghost predicate IsReceipt(body: seq<Piece>, fields: map<string, Expected>) {
    && |body| == |fields| + 2 && body[0].Open? && body[|body| - 1].Close?
    && (forall i :: 0 < i < |body| - 1 ==> IsField(body[i], fields))
    && (forall i, j :: 0 < i < j < |body| - 1 ==> body[i].name != body[j].name)
  }

  predicate IsField(piece: Piece, fields: map<string, Expected>) {
    piece.Member? && piece.name in fields && Matches(piece.value, fields[piece.name])
  }

  /** Each expected field is present: a receipt leaves nothing out. */
  lemma ReceiptIsComplete(body: seq<Piece>, fields: map<string, Expected>, name: string)
    requires IsReceipt(body, fields) && name in fields
    ensures exists i :: 0 < i < |body| - 1 && body[i].name == name
  {
    var listed := Listed(body, |fields|);
    if name !in listed {
      ListedCount(body, fields, |fields|);
      SubsetCount(listed, fields.Keys - {name});
      assert false;
    }
    var i :| 0 < i <= |fields| && body[i].name == name;
  }

  ghost function Listed(body: seq<Piece>, n: nat): set<string>
    requires n < |body| && forall i :: 0 < i <= n ==> body[i].Member?
  {
    set i | 0 < i <= n :: body[i].name
  }

  lemma {:induction false} ListedCount(body: seq<Piece>, fields: map<string, Expected>, n: nat)
    requires IsReceipt(body, fields) && n <= |fields|
    ensures |Listed(body, n)| == n && Listed(body, n) <= fields.Keys
  {
    if n == 0 {
      assert Listed(body, 0) == {};
    } else {
      ListedCount(body, fields, n - 1);
      assert Listed(body, n) == Listed(body, n - 1) + {body[n].name};
    }
  }

  lemma {:induction false} SubsetCount<T>(a: set<T>, b: set<T>)
    requires a <= b
    ensures |a| <= |b|
  {
    if a != {} {
      var x :| x in a;
      SubsetCount(a - {x}, b - {x});
    }
  }

  /** No body is a receipt for an event and for a picture, whatever events they are for. */
  lemma ReceiptsNeverConfused(body: seq<Piece>, eventId: string, version: int, other: string, version': int,
                              attachmentId: string)
    requires attachmentId != "" && IsReceipt(body, Fields(eventId, version, ""))
    ensures !IsReceipt(body, Fields(other, version', attachmentId))
  {
    FieldCount(eventId, version, "");
    FieldCount(other, version', attachmentId);
  }

  lemma FieldCount(eventId: string, version: int, attachmentId: string)
    ensures |Fields(eventId, version, attachmentId)| == if attachmentId == "" then 3 else 4
  {
    var three := map["schemaVersion" := ExpectNumber(version), "eventId" := ExpectText(eventId),
                     "receipt" := ExpectText("stored")];
    assert three.Keys == {"schemaVersion", "eventId", "receipt"};
    assert |three| == |three.Keys| == 3;
    assert "attachmentId" !in three;
  }

  /** One member of the object: its value must be the expected one of its name. */
  method ValidMember(name: string, value: Json, eventId: string, version: int, attachmentId: string) returns (ok: bool)
    ensures var fields := Fields(eventId, version, attachmentId);
            ok <==> name in fields && Matches(value, fields[name])
  {
    if name == "attachmentId" {
      ok := attachmentId != "" && Matches(value, ExpectText(attachmentId));
    } else if name == "schemaVersion" {
      ok := Matches(value, ExpectNumber(version));
    } else if name == "eventId" {
      ok := Matches(value, ExpectText(eventId));
    } else if name == "receipt" {
      ok := Matches(value, ExpectText("stored"));
    } else {
      ok := false;
    }
  }

  /** What has been read so far: the opening brace and `n - 1` fields, whose names are `seen`. */
  ghost predicate Read(body: seq<Piece>, n: nat, fields: map<string, Expected>, seen: set<string>) {
    && 1 <= n <= |body| && body[0].Open? && |seen| == n - 1
    && (forall i :: 0 < i < n ==> IsField(body[i], fields) && body[i].name in seen)
    && (forall i, j :: 0 < i < j < n ==> body[i].name != body[j].name)
    && (forall name :: name in seen ==> exists i :: 0 < i < n && body[i].Member? && body[i].name == name)
  }

  lemma ReadOn(body: seq<Piece>, n: nat, fields: map<string, Expected>, seen: set<string>)
    requires Read(body, n, fields, seen) && n < |body| && IsField(body[n], fields) && body[n].name !in seen
    ensures Read(body, n + 1, fields, seen + {body[n].name})
  {
  }

  /** A piece that is neither a new field nor the end spoils the receipt. */
  lemma ReadSpoilt(body: seq<Piece>, n: nat, fields: map<string, Expected>, seen: set<string>)
    requires Read(body, n, fields, seen) && n < |body| && !body[n].Close?
    requires !IsField(body[n], fields) || body[n].name in seen
    ensures !IsReceipt(body, fields)
  {
  }

  lemma ReadToEnd(body: seq<Piece>, n: nat, fields: map<string, Expected>, seen: set<string>)
    requires Read(body, n, fields, seen) && (n < |body| ==> body[n].Close?)
    ensures IsReceipt(body, fields) <==> n < |body| && |seen| == |fields| && n + 1 == |body|
  {
  }

  /** The streaming check accepts exactly the receipts. */
  method ValidReceipt(body: seq<Piece>, eventId: string, version: int, attachmentId: string) returns (valid: bool)
    ensures valid <==> IsReceipt(body, Fields(eventId, version, attachmentId))
  {
    ghost var fields := Fields(eventId, version, attachmentId);
    FieldCount(eventId, version, attachmentId);
    var expectedFields := if attachmentId == "" then 3 else 4;
    if body == [] || !body[0].Open? {
      return false;
    }
    hide Fields, Matches, IsReceipt;
    var seen: set<string> := {};
    var i := 1;
    while i < |body| && !body[i].Close?
      invariant Read(body, i, fields, seen)
    {
      hide Read;
      if !body[i].Member? || body[i].name in seen {
        ReadSpoilt(body, i, fields, seen);
        return false;
      }
      var ok := ValidMember(body[i].name, body[i].value, eventId, version, attachmentId);
      if !ok {
        ReadSpoilt(body, i, fields, seen);
        return false;
      }
      ReadOn(body, i, fields, seen);
      seen := seen + {body[i].name};
      i := i + 1;
    }
    ReadToEnd(body, i, fields, seen);
    valid := i < |body| && |seen| == expectedFields && i + 1 == |body|;
  }

  // ----- Sending -------------------------------------------------------------

  /** The receiver's answer; no body when it could not be read or exceeds 4096 bytes. */
  datatype Answer = NoConnection | Response(code: int, body: Option<seq<Piece>>)

  const EVENT_VERSION := 2
  const PICTURE_VERSION := 1

  /** The receipt that acknowledges what was sent. */
  function ReceiptFor(body: Body): map<string, Expected> {
    match body
    case EventBody(m) => Fields(m.eventId, EVENT_VERSION, "")
    case PictureBody(p) => Fields(p.eventId, PICTURE_VERSION, "Picture")
  }

  function EventIdOf(body: Body): string {
    match body case EventBody(m) => m.eventId case PictureBody(p) => p.eventId
  }

  /** The one way to spell an expected value. */
  function Spelled(expected: Expected): Json {
    match expected case ExpectText(text) => Text(text) case ExpectNumber(number) => Number(number)
  }

  /** The body is one object with exactly these fields and values, in some order. */
  ghost predicate IsExactReceipt(body: seq<Piece>, fields: map<string, Expected>) {
    && |body| == |fields| + 2 && body[0].Open? && body[|body| - 1].Close?
    && (forall i :: 0 < i < |body| - 1 ==>
          body[i].Member? && body[i].name in fields && body[i].value == Spelled(fields[body[i].name]))
    && (forall i, j :: 0 < i < j < |body| - 1 ==> body[i].name != body[j].name)
  }

  /** For what the gateway sends, whose event identities are not empty, no other spelling is accepted. */
  lemma ReceiptsAreExact(answer: seq<Piece>, body: Body)
    requires EventIdOf(body) != ""
    ensures IsReceipt(answer, ReceiptFor(body)) <==> IsExactReceipt(answer, ReceiptFor(body))
  {
    var fields := ReceiptFor(body);
    forall name, value: Json | name in fields ensures Matches(value, fields[name]) <==> value == Spelled(fields[name]) {
      assert name in {"schemaVersion", "eventId", "receipt", "attachmentId"};
    }
    assert forall i :: 0 <= i < |answer| ==> (IsField(answer[i], fields) <==>
      answer[i].Member? && answer[i].name in fields && answer[i].value == Spelled(fields[answer[i].name]));
  }

  /** Every expected field is spelled out in an exact receipt. */
  lemma ExactHasField(answer: seq<Piece>, fields: map<string, Expected>, name: string)
    requires IsExactReceipt(answer, fields) && name in fields
    ensures Member(name, Spelled(fields[name])) in answer
  {
    assert forall e: Expected :: Matches(Spelled(e), e);
    assert IsReceipt(answer, fields);
    ReceiptIsComplete(answer, fields, name);
    var i :| 0 < i < |answer| - 1 && answer[i].name == name;
    assert answer[i] == Member(name, Spelled(fields[name]));
  }

  /** Answer place `i` holds the field `name` as it is to be spelled. */
  predicate Holds(answer: seq<Piece>, i: int, fields: map<string, Expected>, name: string) {
    0 <= i < |answer| && name in fields && answer[i] == Member(name, Spelled(fields[name]))
  }

  lemma ThreeFill(answer: seq<Piece>, fields: map<string, Expected>, x: string, y: string, z: string)
    requires |answer| == 5 && |fields| == 3 && answer[0].Open? && answer[4].Close? && x != y && y != z && z != x
    requires exists i :: Holds(answer, i, fields, x)
    requires exists i :: Holds(answer, i, fields, y)
    requires exists i :: Holds(answer, i, fields, z)
    ensures IsExactReceipt(answer, fields)
  {
    hide Spelled;
    var i :| Holds(answer, i, fields, x);
    var j :| Holds(answer, j, fields, y);
    var k :| Holds(answer, k, fields, z);
    assert {i, j, k} == {1, 2, 3};
  }

  lemma FourFill(answer: seq<Piece>, fields: map<string, Expected>, x: string, y: string, z: string, w: string)
    requires |answer| == 6 && |fields| == 4 && answer[0].Open? && answer[5].Close? && x != y && y != z && z != x
    requires w != x && w != y && w != z
    requires exists i :: Holds(answer, i, fields, x)
    requires exists i :: Holds(answer, i, fields, y)
    requires exists i :: Holds(answer, i, fields, z)
    requires exists i :: Holds(answer, i, fields, w)
    ensures IsExactReceipt(answer, fields)
  {
    hide Spelled;
    var i :| Holds(answer, i, fields, x);
    var j :| Holds(answer, j, fields, y);
    var k :| Holds(answer, k, fields, z);
    var l :| Holds(answer, l, fields, w);
    assert {i, j, k, l} == {1, 2, 3, 4};
  }

  lemma HeldIff(answer: seq<Piece>, fields: map<string, Expected>, name: string)
    requires name in fields
    ensures Member(name, Spelled(fields[name])) in answer <==> exists i :: Holds(answer, i, fields, name)
  {
    if Member(name, Spelled(fields[name])) in answer {
      var i :| 0 <= i < |answer| && answer[i] == Member(name, Spelled(fields[name]));
      assert Holds(answer, i, fields, name);
    }
  }

  lemma EventFields(m: Message)
    ensures var fields := ReceiptFor(EventBody(m));
            && |fields| == 3 && fields.Keys == {"schemaVersion", "eventId", "receipt"}
            && Spelled(fields["schemaVersion"]) == Number(2) && Spelled(fields["eventId"]) == Text(m.eventId)
            && Spelled(fields["receipt"]) == Text("stored")
  {
    FieldCount(m.eventId, 2, "");
  }

  /** The receipt of an attendance message has three members, in any order: version 2, its event, and "stored". */
  lemma EventReceiptIff(answer: seq<Piece>, m: Message)
    requires m.eventId != ""
    ensures IsReceipt(answer, ReceiptFor(EventBody(m))) <==>
            && |answer| == 5 && answer[0].Open? && answer[4].Close?
            && Member("schemaVersion", Number(2)) in answer && Member("eventId", Text(m.eventId)) in answer
            && Member("receipt", Text("stored")) in answer
  {
    hide IsReceipt, ReceiptFor, Fields, Spelled, Holds;
    var fields := ReceiptFor(EventBody(m));
    EventFields(m);
    ReceiptsAreExact(answer, EventBody(m));
    HeldIff(answer, fields, "schemaVersion");
    HeldIff(answer, fields, "eventId");
    HeldIff(answer, fields, "receipt");
    if IsExactReceipt(answer, fields) {
      ExactHasField(answer, fields, "schemaVersion");
      ExactHasField(answer, fields, "eventId");
      ExactHasField(answer, fields, "receipt");
    } else if |answer| == 5 && answer[0].Open? && answer[4].Close?
              && (exists i :: Holds(answer, i, fields, "schemaVersion"))
              && (exists i :: Holds(answer, i, fields, "eventId"))
              && (exists i :: Holds(answer, i, fields, "receipt"))
    {
      ThreeFill(answer, fields, "schemaVersion", "eventId", "receipt");
    }
  }

  lemma PictureFields(p: Picture)
    ensures var fields := ReceiptFor(PictureBody(p));
            && |fields| == 4 && fields.Keys == {"schemaVersion", "eventId", "receipt", "attachmentId"}
            && Spelled(fields["schemaVersion"]) == Number(1) && Spelled(fields["eventId"]) == Text(p.eventId)
            && Spelled(fields["receipt"]) == Text("stored") && Spelled(fields["attachmentId"]) == Text("Picture")
  {
    FieldCount(p.eventId, 1, "Picture");
  }

  /** That of a picture has four: version 1, its event, "stored", and the name of the attachment. */
  lemma PictureReceiptIff(answer: seq<Piece>, p: Picture)
    requires p.eventId != ""
    ensures IsReceipt(answer, ReceiptFor(PictureBody(p))) <==>
            && |answer| == 6 && answer[0].Open? && answer[5].Close?
            && Member("schemaVersion", Number(1)) in answer && Member("eventId", Text(p.eventId)) in answer
            && Member("receipt", Text("stored")) in answer && Member("attachmentId", Text("Picture")) in answer
  {
    hide IsReceipt, ReceiptFor, Fields, Spelled, Holds;
    var fields := ReceiptFor(PictureBody(p));
    PictureFields(p);
    ReceiptsAreExact(answer, PictureBody(p));
    HeldIff(answer, fields, "schemaVersion");
    HeldIff(answer, fields, "eventId");
    HeldIff(answer, fields, "receipt");
    HeldIff(answer, fields, "attachmentId");
    if IsExactReceipt(answer, fields) {
      ExactHasField(answer, fields, "schemaVersion");
      ExactHasField(answer, fields, "eventId");
      ExactHasField(answer, fields, "receipt");
      ExactHasField(answer, fields, "attachmentId");
    } else if |answer| == 6 && answer[0].Open? && answer[5].Close?
              && (exists i :: Holds(answer, i, fields, "schemaVersion"))
              && (exists i :: Holds(answer, i, fields, "eventId"))
              && (exists i :: Holds(answer, i, fields, "receipt"))
              && (exists i :: Holds(answer, i, fields, "attachmentId"))
    {
      FourFill(answer, fields, "schemaVersion", "eventId", "receipt", "attachmentId");
    }
  }

  predicate Transient(code: int) { code == 408 || code == 429 || code >= 500 }

  /** The receiver has the body: it answered with status 200 and a receipt for it. */
  ghost predicate Acknowledged(ticket: Ticket, keys: set<string>, destinationOk: bool, answer: Answer) {
    && ticket.key in keys && destinationOk && answer.Response? && answer.code == 200
    && answer.body.Some? && IsReceipt(answer.body.value, ReceiptFor(ticket.body))
  }

  /** Delivered means acknowledged; only trouble that may pass is retried unasked. */
  ghost function Judge(ticket: Ticket, keys: set<string>, destinationOk: bool, answer: Answer): (verdict: Verdict)
    ensures verdict.Accept? <==> Acknowledged(ticket, keys, destinationOk, answer)
    ensures verdict.Postpone? <==>
              && ticket.key in keys && destinationOk
              && (answer.NoConnection? || answer.code == 408 || answer.code == 429 || answer.code >= 500)
  {
    if Acknowledged(ticket, keys, destinationOk, answer) then Accept
    else if ticket.key in keys && destinationOk && (answer.NoConnection? || Transient(answer.code)) then Postpone
    else Reject
  }

  method Send(ticket: Ticket, keys: set<string>, destinationOk: bool, answer: Answer)
    returns (verdict: Verdict, failure: string)
    ensures verdict == Judge(ticket, keys, destinationOk, answer)
    ensures verdict.Accept? <==> Acknowledged(ticket, keys, destinationOk, answer)
    ensures verdict.Postpone? <==>
              && ticket.key in keys && destinationOk
              && (answer.NoConnection? || answer.code == 408 || answer.code == 429 || answer.code >= 500)
    ensures verdict.Reject? <==>
              || ticket.key !in keys || !destinationOk
              || (answer.Response? && answer.code < 500 && answer.code != 408 && answer.code != 429
                  && !Acknowledged(ticket, keys, destinationOk, answer))
    ensures failure ==
              if ticket.key !in keys then "signing_key_unavailable"
              else if !destinationOk then "invalid_destination"
              else if answer.NoConnection? then "network_error"
              else if verdict.Accept? then ""
              else if verdict.Postpone? then "receiver_unavailable"
              else if answer.code == 200 then "invalid_receipt"
              else "receiver_rejected"
  {
    hide IsReceipt;
    if ticket.key !in keys {
      return Reject, "signing_key_unavailable";
    }
    if !destinationOk {
      return Reject, "invalid_destination";
    }
    if answer.NoConnection? {
      return Postpone, "network_error";
    }
    if Transient(answer.code) {
      return Postpone, "receiver_unavailable";
    }
    if answer.code != 200 {
      return Reject, "receiver_rejected";
    }
    if answer.body.None? {
      return Reject, "invalid_receipt";
    }
    var valid;
    match ticket.body {
      case EventBody(m) => valid := ValidReceipt(answer.body.value, m.eventId, EVENT_VERSION, "");
      case PictureBody(p) => valid := ValidReceipt(answer.body.value, p.eventId, PICTURE_VERSION, "Picture");
    }
    if !valid {
      return Reject, "invalid_receipt";
    }
    return Accept, "";
  }

  /** A receipt acknowledges one event, and either its attendance message or its picture. */
  lemma ReceiptBindsBody(answer: seq<Piece>, a: Body, b: Body)
    requires IsReceipt(answer, ReceiptFor(a)) && IsReceipt(answer, ReceiptFor(b))
    requires EventIdOf(a) != "" && EventIdOf(b) != ""
    ensures a.EventBody? == b.EventBody? && EventIdOf(a) == EventIdOf(b)
  {
    FieldCount(EventIdOf(a), if a.EventBody? then EVENT_VERSION else PICTURE_VERSION,
               if a.EventBody? then "" else "Picture");
    FieldCount(EventIdOf(b), if b.EventBody? then EVENT_VERSION else PICTURE_VERSION,
               if b.EventBody? then "" else "Picture");
    ReceiptIsComplete(answer, ReceiptFor(a), "eventId");
    var i :| 0 < i < |answer| - 1 && answer[i].name == "eventId";
    assert IsField(answer[i], ReceiptFor(a)) && IsField(answer[i], ReceiptFor(b));
  }

  // ----- One tick ------------------------------------------------------------

  /** What the world contributes to one round: the times of claim and report, and the answer in between. */
  datatype Round = Round(now: int, later: int, destinationOk: bool, answer: Answer)

  const ROUNDS := 25

  /**
   Round `k` of the trace claims an item and then reports on that claim what its answer means, to be tried again after
   the back-off.
   */
  ghost predicate Paired(db: Db, trace: seq<Step>, k: nat, queue: Queue, keys: set<string>, rounds: seq<Round>)
    requires 2 * k + 1 < |trace| && k < |rounds|
  {
    var before := Exec(db, trace[..2 * k]);
    var report := trace[2 * k + 1];
    && trace[2 * k] == StepClaim(queue, {}, rounds[k].now)
    && report.StepFinish? && Claims(before, trace[2 * k], report.item)
    && var ticket := TicketOf(before, trace[2 * k], report.item);
       && report.attempts == ticket.attempts
       && report.verdict == Judge(ticket, keys, rounds[k].destinationOk, rounds[k].answer)
       && report.next == rounds[k].later + BackOff(report.attempts)
  }

  ghost predicate AllPaired(db: Db, trace: seq<Step>, sent: nat, queue: Queue, keys: set<string>, rounds: seq<Round>)
    requires 2 * sent <= |trace| && sent <= |rounds|
  {
    forall k :: 0 <= k < sent ==> Paired(db, trace, k, queue, keys, rounds)
  }

  /**
   At most 25 deliveries, each claimed and then reported on as its answer deserves; fewer only when nothing more is
   claimable. Nothing else happens to the outbox.
   */
  method Tick(outbox: Outbox, queue: Queue, keys: set<string>, rounds: seq<Round>)
    returns (ghost trace: seq<Step>, sent: nat)
    requires outbox.Valid() && |rounds| == 25
    modifies outbox`deliveries, outbox`attachments
    ensures outbox.Valid()
    ensures sent <= 25 && |trace| == 2 * sent
    ensures outbox.View() == Exec(old(outbox.View()), trace)
    ensures AllPaired(old(outbox.View()), trace, sent, queue, keys, rounds)
    ensures sent < 25 ==> Candidates(outbox.View(), queue, {}, rounds[sent].now) == {}
  {
    hide Inv, Paired, Exec, ClaimNext, Finish, BackOff, Judge;
    ghost var db := outbox.View();
    trace, sent := [], 0;
    NothingDone(db);
    while sent < ROUNDS
      invariant 0 <= sent <= ROUNDS && |trace| == 2 * sent && outbox.Valid()
      invariant outbox.View() == Exec(db, trace)
      invariant AllPaired(db, trace, sent, queue, keys, rounds)
    {
      var round := rounds[sent];
      NothingToClaim(outbox.View(), queue, round.now);
      var ticket := outbox.Claim(queue, {}, round.now);
      if ticket.None? {
        break;
      }
      var verdict, failure := Send(ticket.value, keys, round.destinationOk, round.answer);
      var delay, _ := RetryDelay(ticket.value.attempts);
      ghost var claimed := outbox.View();
      var _ := outbox.Finish(ticket.value.item, ticket.value.attempts, verdict, round.later + delay);
      ghost var claim := StepClaim(queue, {}, round.now);
      ghost var report := StepFinish(ticket.value.item, ticket.value.attempts, verdict, round.later + delay);
      Extend(db, trace, claim, report, queue, keys, rounds, sent, ticket.value);
      trace := trace + [claim, report];
      sent := sent + 1;
    }
  }

  lemma NothingToClaim(db: Db, queue: Queue, now: int)
    ensures ClaimNext(db, queue, {}, now) == Ok(None) ==> Candidates(db, queue, {}, now) == {}
  {
    hide Claimable, ClaimItem;
  }

  lemma NothingDone(db: Db)
    ensures Exec(db, []) == db
  {
  }

  lemma Extend(db: Db, trace: seq<Step>, claim: Step, report: Step, queue: Queue, keys: set<string>, rounds: seq<Round>,
               sent: nat, ticket: Ticket)
    requires |trace| == 2 * sent && sent < |rounds| && claim == StepClaim(queue, {}, rounds[sent].now)
    requires Claims(Exec(db, trace), claim, ticket.item) && TicketOf(Exec(db, trace), claim, ticket.item) == ticket
    requires report.StepFinish? && report.item == ticket.item && report.attempts == ticket.attempts
    requires report.verdict == Judge(ticket, keys, rounds[sent].destinationOk, rounds[sent].answer)
    requires report.next == rounds[sent].later + BackOff(ticket.attempts)
    requires AllPaired(db, trace, sent, queue, keys, rounds)
    ensures Exec(db, trace + [claim, report]) == Apply(Apply(Exec(db, trace), claim), report)
    ensures AllPaired(db, trace + [claim, report], sent + 1, queue, keys, rounds)
  {
    hide Apply, Claims, TicketOf, BackOff, Judge;
    var longer := trace + [claim, report];
    ExecConcat(db, trace, [claim, report]);
    assert [claim, report][1..] == [report] && [report][1..] == [];
    assert Exec(Apply(Exec(db, trace), claim), [report]) == Exec(Apply(Apply(Exec(db, trace), claim), report), []);
    forall k | 0 <= k < sent + 1 ensures Paired(db, longer, k, queue, keys, rounds) {
      assert longer[..2 * k] == trace[..2 * k];
      if k < sent {
        assert Paired(db, trace, k, queue, keys, rounds);
        assert longer[2 * k] == trace[2 * k] && longer[2 * k + 1] == trace[2 * k + 1];
      } else {
        assert trace[..2 * k] == trace;
      }
    }
  }

  /** In round `k` the item was claimed, and the receiver acknowledged what that claim handed out. */
  ghost predicate AcknowledgedIn(db: Db, trace: seq<Step>, k: nat, keys: set<string>, rounds: seq<Round>, item: Item)
    requires 2 * k + 1 < |trace| && k < |rounds|
  {
    var before := Exec(db, trace[..2 * k]);
    && Claims(before, trace[2 * k], item)
    && Acknowledged(TicketOf(before, trace[2 * k], item), keys, rounds[k].destinationOk, rounds[k].answer)
  }

  lemma RoundDelivers(db: Db, trace: seq<Step>, k: nat, queue: Queue, keys: set<string>, rounds: seq<Round>, item: Item)
    requires Inv(db) && 2 * k + 1 < |trace| && k < |rounds| && Paired(db, trace, k, queue, keys, rounds)
    requires Exists(Exec(db, trace[..2 * k]), item) && !WorkOf(Exec(db, trace[..2 * k]), item).status.Delivered?
    ensures Exec(db, trace[..2 * k + 2]) == Apply(Apply(Exec(db, trace[..2 * k]), trace[2 * k]), trace[2 * k + 1])
    ensures var after := Exec(db, trace[..2 * k + 2]);
            && Exists(after, item)
            && (WorkOf(after, item).status.Delivered? ==> AcknowledgedIn(db, trace, k, keys, rounds, item))
  {
    hide Inv, Apply, Claims, TicketOf, Judge, Reports, Retries, BackOff;
    var before := Exec(db, trace[..2 * k]);
    var claimed := Apply(before, trace[2 * k]);
    ExecKeepsInv(db, trace[..2 * k]);
    ApplyKeepsInv(before, trace[2 * k]);
    TwoMore(db, trace, 2 * k);
    StepItem(before, trace[2 * k], item);
    StepItem(claimed, trace[2 * k + 1], item);
    OnlyReportsDeliver(before, claimed, trace, k, item);
  }

  /** Delivered comes of an accepting report on the item, and of nothing else. */
  lemma OnlyReportsDeliver(before: Db, claimed: Db, trace: seq<Step>, k: nat, item: Item)
    requires 2 * k + 1 < |trace| && trace[2 * k].StepClaim? && trace[2 * k + 1].StepFinish?
    ensures !Reports(before, trace[2 * k], item) && !Retries(before, trace[2 * k], item)
    ensures !Claims(claimed, trace[2 * k + 1], item) && !Retries(claimed, trace[2 * k + 1], item)
    ensures Reports(claimed, trace[2 * k + 1], item) ==> trace[2 * k + 1].item == item
  {
  }

  lemma TwoMore(db: Db, trace: seq<Step>, n: nat)
    requires n + 1 < |trace|
    ensures Exec(db, trace[..n + 2]) == Apply(Apply(Exec(db, trace[..n]), trace[n]), trace[n + 1])
  {
    hide Apply;
    ExecSplit(db, trace, n, n + 2);
    var after := Apply(Exec(db, trace[..n]), trace[n]);
    assert trace[n + 1..n + 2] == [trace[n + 1]] && [trace[n + 1]][1..] == [];
    assert Exec(after, [trace[n + 1]]) == Exec(Apply(after, trace[n + 1]), []);
  }

  /** What a tick delivers, the receiver acknowledged in that tick with status 200 and a receipt for its body. */
  lemma {:induction false} TickDeliversAcknowledged(db: Db, trace: seq<Step>, sent: nat, queue: Queue,
                                                    keys: set<string>,
                                                    rounds: seq<Round>, item: Item)
    requires Inv(db) && 2 * sent <= |trace| && sent <= |rounds| && AllPaired(db, trace, sent, queue, keys, rounds)
    requires Exists(db, item) && !WorkOf(db, item).status.Delivered?
    ensures Exists(Exec(db, trace[..2 * sent]), item)
    ensures WorkOf(Exec(db, trace[..2 * sent]), item).status.Delivered? ==>
              exists k :: 0 <= k < sent && AcknowledgedIn(db, trace, k, keys, rounds, item)
  {
    hide Inv, Paired, AcknowledgedIn, Apply;
    if sent > 0 {
      var k := sent - 1;
      TickDeliversAcknowledged(db, trace, k, queue, keys, rounds, item);
      if !WorkOf(Exec(db, trace[..2 * k]), item).status.Delivered? {
        RoundDelivers(db, trace, k, queue, keys, rounds, item);
      } else {
        RunItem(db, trace[..2 * sent], item);
      }
    }
  }
}
