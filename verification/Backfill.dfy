/**
 The preview of a historical backfill (internal/store/event_backfills.go). One
 pass over both archives classifies, deduplicates and aggregates; it is proved to
 agree with a rule that looks at each row against the whole range.
 */
module Backfill {
  import opened Wrappers
  import opened Ordering
  import opened Terminals
  import opened Messages

  const MAX_ROWS := 10000

  /** An archived row in the chosen range, and whether some delivery already carries it. */
  datatype Row = Row(id: nat, message: Message, queued: bool)

  datatype Candidate = Candidate(id: nat, body: Message)

  datatype Identity = Identity(employee: string, names: seq<string>, events: nat, firstScan: int, lastScan: int)

  /** What an administrator approves. The token is a digest of all of it, and is identified with it. */
  datatype Preview = Preview(terminal: Serial, route: Route, from: int, until: int,
                             eligible: nat, alreadyQueued: nat, duplicateSources: nat, invalid: nat,
                             pushSdkEvents: nat, isapiEvents: nat,
                             identities: seq<Identity>, candidates: seq<Candidate>)

  // ----- The rule ------------------------------------------------------------

  datatype Class = Invalid | DuplicateSource | AlreadyQueued | Eligible

  /** Two records of one event: they agree on a serial number, the instant, the person and the name. */
  predicate SameEvent(a: Message, b: Message) {
    a.scan.serial.Some? && a.scan == b.scan
  }

  predicate LiveTwin(row: Row, m: Message) {
    row.message.source.PushSDK? && ValidMessage(row.message) && SameEvent(row.message, m)
  }

  /** The live archive holds a valid record of the same event, queued or not. */
  predicate HasLiveTwin(rows: seq<Row>, m: Message) {
    exists j :: 0 <= j < |rows| && LiveTwin(rows[j], m)
  }

  function Classify(rows: seq<Row>, row: Row): Class {
    if !ValidMessage(row.message) then Invalid
    else if row.message.source.ISAPI? && HasLiveTwin(rows, row.message) then DuplicateSource
    else if row.queued then AlreadyQueued
    else Eligible
  }

  /** The rows of `part` in class `c`, in order, judged against all of `rows`. */
  function Select(rows: seq<Row>, part: seq<Row>, c: Class): (q: seq<Row>)
    ensures |q| <= |part|
  {
    if part == [] then []
    else
      var last := part[|part| - 1];
      Select(rows, part[..|part| - 1], c) + if Classify(rows, last) == c then [last] else []
  }

  predicate OfPerson(row: Row, person: string) { row.message.scan.employee == Some(person) }

  predicate DatedRow(row: Row) { row.message.scan.employee.Some? && row.message.scan.occurredAt.Some? }

  predicate Dated(q: seq<Row>) {
    forall i :: 0 <= i < |q| ==> DatedRow(q[i])
  }

  ghost function Persons(q: seq<Row>): set<string>
    requires Dated(q)
  {
    set i | 0 <= i < |q| :: q[i].message.scan.employee.value
  }

  ghost function ScansOf(q: seq<Row>, person: string): set<int> {
    set i | 0 <= i < |q| && OfPerson(q[i], person)
  }

  ghost function InstantsOf(q: seq<Row>, person: string): set<int>
    requires Dated(q)
  {
    set i | 0 <= i < |q| && OfPerson(q[i], person) :: q[i].message.scan.occurredAt.value
  }

  ghost function NamesOf(q: seq<Row>, person: string): set<string> {
    set i | 0 <= i < |q| && OfPerson(q[i], person) && q[i].message.scan.name.Some? :: q[i].message.scan.name.value
  }

  predicate IsMin(m: int, s: set<int>) { m in s && forall k :: k in s ==> m <= k }

  predicate IsMax(m: int, s: set<int>) { m in s && forall k :: k in s ==> k <= m }

  ghost function AsKeys(texts: set<string>): set<Key> {
    set t | t in texts :: Key(0, t)
  }

  ghost function Sorted(texts: set<string>): (q: seq<string>)
    ensures forall t :: t in q <==> t in texts
    ensures forall i, j :: 0 <= i < j < |q| ==> TextLess(q[i], q[j])
  {
    var keys := SortedKeys(AsKeys(texts));
    assert forall t :: t in texts ==> Key(0, t) in keys;
    assert forall i :: 0 <= i < |keys| ==> keys[i] in AsKeys(texts);
    Texts(keys)
  }

  /** Each person once, with the number of eligible scans, the true first and last, and the distinct names, sorted. */
  ghost predicate IsIdentity(identity: Identity, q: seq<Row>, person: string)
    requires Dated(q)
  {
    && identity.employee == person
    && identity.events == |ScansOf(q, person)|
    && IsMin(identity.firstScan, InstantsOf(q, person)) && IsMax(identity.lastScan, InstantsOf(q, person))
    && identity.names == Sorted(NamesOf(q, person))
  }

  ghost predicate AreIdentities(identities: seq<Identity>, q: seq<Row>)
    requires Dated(q)
  {
    var persons := Sorted(Persons(q));
    && |identities| == |persons|
    && forall i :: 0 <= i < |identities| ==> IsIdentity(identities[i], q, persons[i])
  }

  function CandidatesOf(q: seq<Row>): (candidates: seq<Candidate>)
    ensures |candidates| == |q|
    ensures forall i :: 0 <= i < |q| ==> candidates[i] == Candidate(q[i].id, q[i].message)
  {
    seq(|q|, i requires 0 <= i < |q| => Candidate(q[i].id, q[i].message))
  }

  function FromSource(q: seq<Row>, source: Source): (n: nat)
    ensures n <= |q|
  {
    if q == [] then 0
    else FromSource(q[..|q| - 1], source) + if q[|q| - 1].message.source == source then 1 else 0
  }

  /** The preview of `rows` under the rule; it is unique, see `PreviewUnique`. */
  ghost predicate IsPreview(p: Preview, rows: seq<Row>, terminal: Serial, route: Route, from: int, until: int) {
    var q := Select(rows, rows, Eligible);
    && p.terminal == terminal && p.route == route && p.from == from && p.until == until
    && p.eligible == |q|
    && p.alreadyQueued == |Select(rows, rows, AlreadyQueued)|
    && p.duplicateSources == |Select(rows, rows, DuplicateSource)|
    && p.invalid == |Select(rows, rows, Invalid)|
    && p.pushSdkEvents == FromSource(q, PushSDK) && p.isapiEvents == FromSource(q, ISAPI)
    && p.candidates == CandidatesOf(q)
    && Dated(q) && AreIdentities(p.identities, q)
  }

  // ----- What the rule says --------------------------------------------------

  /** Every row falls in exactly one class. */
  lemma {:induction false} ClassesPartition(rows: seq<Row>, part: seq<Row>)
    ensures |Select(rows, part, Eligible)| + |Select(rows, part, AlreadyQueued)|
          + |Select(rows, part, DuplicateSource)| + |Select(rows, part, Invalid)| == |part|
    decreases |part|
  {
    if part != [] {
      ClassesPartition(rows, part[..|part| - 1]);
    }
  }

  lemma {:induction false} SourcesPartition(q: seq<Row>)
    ensures FromSource(q, PushSDK) + FromSource(q, ISAPI) == |q|
    decreases |q|
  {
    if q != [] {
      SourcesPartition(q[..|q| - 1]);
    }
  }

  lemma IdentityUnique(a: Identity, b: Identity, q: seq<Row>, person: string)
    requires Dated(q) && IsIdentity(a, q, person) && IsIdentity(b, q, person)
    ensures a == b
  {
  }

  lemma PreviewUnique(a: Preview, b: Preview, rows: seq<Row>, terminal: Serial, route: Route, from: int, until: int)
    requires IsPreview(a, rows, terminal, route, from, until) && IsPreview(b, rows, terminal, route, from, until)
    ensures a == b
  {
    var q := Select(rows, rows, Eligible);
    forall i | 0 <= i < |a.identities| ensures a.identities[i] == b.identities[i] {
      IdentityUnique(a.identities[i], b.identities[i], q, Sorted(Persons(q))[i]);
    }
  }

  function TotalEvents(identities: seq<Identity>): nat {
    if identities == [] then 0 else identities[0].events + TotalEvents(identities[1..])
  }

  ghost function SumOver(persons: seq<string>, q: seq<Row>): nat {
    if persons == [] then 0 else |ScansOf(q, persons[0])| + SumOver(persons[1..], q)
  }

  lemma ScansGrow(q: seq<Row>, row: Row, person: string)
    ensures |ScansOf(q + [row], person)| == |ScansOf(q, person)| + if OfPerson(row, person) then 1 else 0
  {
    var longer := q + [row];
    assert forall i :: 0 <= i < |q| ==> longer[i] == q[i];
    if OfPerson(row, person) {
      assert ScansOf(longer, person) == ScansOf(q, person) + {|q|};
    } else {
      assert ScansOf(longer, person) == ScansOf(q, person);
    }
  }

  lemma {:induction false} SumGrows(persons: seq<string>, q: seq<Row>, row: Row)
    requires row.message.scan.employee.Some?
    requires forall i, j :: 0 <= i < j < |persons| ==> persons[i] != persons[j]
    ensures SumOver(persons, q + [row]) == SumOver(persons,
                                                   q) + if row.message.scan.employee.value in persons then 1 else 0
    decreases |persons|
  {
    if persons != [] {
      ScansGrow(q, row, persons[0]);
      SumGrows(persons[1..], q, row);
      assert persons == [persons[0]] + persons[1..];
    }
  }

  lemma {:induction false} SumOfNothing(persons: seq<string>)
    ensures SumOver(persons, []) == 0
  {
    if persons != [] {
      assert ScansOf([], persons[0]) == {};
      SumOfNothing(persons[1..]);
    }
  }

  lemma {:induction false} SumIsAll(persons: seq<string>, q: seq<Row>)
    requires Dated(q) && forall i, j :: 0 <= i < j < |persons| ==> persons[i] != persons[j]
    requires forall i :: 0 <= i < |q| ==> q[i].message.scan.employee.value in persons
    ensures SumOver(persons, q) == |q|
    decreases |q|
  {
    if q == [] {
      SumOfNothing(persons);
    } else {
      var front, last := q[..|q| - 1], q[|q| - 1];
      assert q == front + [last];
      SumGrows(persons, front, last);
      SumIsAll(persons, front);
    }
  }

  lemma {:induction false} TotalIsSum(identities: seq<Identity>, persons: seq<string>, q: seq<Row>)
    requires Dated(q) && |identities| == |persons|
    requires forall i :: 0 <= i < |identities| ==> IsIdentity(identities[i], q, persons[i])
    ensures TotalEvents(identities) == SumOver(persons, q)
    decreases |identities|
  {
    if identities != [] {
      TotalIsSum(identities[1..], persons[1..], q);
    }
  }

  lemma IdentitiesAreNamed(identities: seq<Identity>, q: seq<Row>)
    requires Dated(q) && AreIdentities(identities, q)
    ensures forall i :: 0 <= i < |identities| ==> identities[i].employee == Sorted(Persons(q))[i]
  {
    hide Sorted, ScansOf, InstantsOf, NamesOf;
  }

  /** The totals per person add up to the eligible rows, and so do the totals per source. */
  lemma TotalsAddUp(p: Preview, rows: seq<Row>, terminal: Serial, route: Route, from: int, until: int)
    requires IsPreview(p, rows, terminal, route, from, until)
    ensures TotalEvents(p.identities) == p.eligible == p.pushSdkEvents + p.isapiEvents
    ensures p.eligible + p.alreadyQueued + p.duplicateSources + p.invalid == |rows|
    ensures forall i, j :: 0 <= i < j < |p.identities| ==> TextLess(p.identities[i].employee, p.identities[j].employee)
  {
    hide Select, Classify, FromSource, Sorted, IsIdentity, SumOver, TotalEvents;
    var q := Select(rows, rows, Eligible);
    var persons := Sorted(Persons(q));
    ClassesPartition(rows, rows);
    SourcesPartition(q);
    forall i, j | 0 <= i < j < |persons| ensures persons[i] != persons[j] {
      TextLessTotal(persons[i], persons[j]);
    }
    SumIsAll(persons, q);
    TotalIsSum(p.identities, persons, q);
    IdentitiesAreNamed(p.identities, q);
  }

  lemma {:induction false} Selected(rows: seq<Row>, part: seq<Row>, c: Class)
    ensures forall row :: row in Select(rows, part, c) <==> row in part && Classify(rows, row) == c
    decreases |part|
  {
    hide Classify;
    if part != [] {
      var front, last := part[..|part| - 1], part[|part| - 1];
      Selected(rows, front, c);
      assert part == front + [last];
    }
  }

  predicate SameRow(a: Row, b: Row) { a.id == b.id && a.message.source == b.message.source }

  ghost predicate NoRowTwice(q: seq<Row>) {
    forall i, j :: 0 <= i < j < |q| ==> !SameRow(q[i], q[j])
  }

  lemma {:induction false} SelectsNoRowTwice(rows: seq<Row>, part: seq<Row>, c: Class)
    requires NoRowTwice(part)
    ensures NoRowTwice(Select(rows, part, c))
    decreases |part|
  {
    hide Classify, SameRow;
    if part != [] {
      var front, last := part[..|part| - 1], part[|part| - 1];
      SelectsNoRowTwice(rows, front, c);
      Selected(rows, front, c);
      forall row | row in front ensures !SameRow(row, last) {
        var i :| 0 <= i < |front| && front[i] == row;
        assert !SameRow(part[i], part[|part| - 1]);
      }
      var kept := Select(rows, front, c);
      assert forall k :: 0 <= k < |kept| ==> kept[k] in kept;
    }
  }

  // ----- The preview after the candidates were queued ------------------------

  /** The same archive once every eligible row has its delivery. */
  function Requeued(rows: seq<Row>): (after: seq<Row>)
    ensures |after| == |rows|
    ensures forall i :: 0 <= i < |rows| ==>
              after[i] == rows[i].(queued := rows[i].queued || Classify(rows, rows[i]).Eligible?)
  {
    seq(|rows|, i requires 0 <= i < |rows| => rows[i].(queued := rows[i].queued || Classify(rows, rows[i]).Eligible?))
  }

  lemma RequeuedTwins(rows: seq<Row>, m: Message)
    ensures HasLiveTwin(Requeued(rows), m) == HasLiveTwin(rows, m)
  {
    var after := Requeued(rows);
    if HasLiveTwin(rows, m) {
      var j :| 0 <= j < |rows| && LiveTwin(rows[j], m);
      assert LiveTwin(after[j], m);
    }
    if HasLiveTwin(after, m) {
      var j :| 0 <= j < |after| && LiveTwin(after[j], m);
      assert LiveTwin(rows[j], m);
    }
  }

  lemma RequeuedClass(rows: seq<Row>, i: nat)
    requires i < |rows|
    ensures var before := Classify(rows, rows[i]);
            Classify(Requeued(rows), Requeued(rows)[i]) == if before.Eligible? then AlreadyQueued else before
  {
    hide ValidMessage, HasLiveTwin;
    RequeuedTwins(rows, rows[i].message);
  }

  lemma {:induction false} RequeuedCounts(rows: seq<Row>, n: nat)
    requires n <= |rows|
    ensures var after := Requeued(rows);
            && Select(after, after[..n], Eligible) == []
            && |Select(after, after[..n], AlreadyQueued)|
               == |Select(rows, rows[..n], AlreadyQueued)| + |Select(rows, rows[..n], Eligible)|
            && |Select(after, after[..n], DuplicateSource)| == |Select(rows, rows[..n], DuplicateSource)|
            && |Select(after, after[..n], Invalid)| == |Select(rows, rows[..n], Invalid)|
  {
    hide Classify, Select, Requeued;
    var after := Requeued(rows);
    if n == 0 {
      Beginning(rows);
      Beginning(after);
    } else {
      var k: nat := n - 1;
      forall c: Class { SelectNext(rows, k, c); }
      forall c: Class { SelectNext(after, k, c); }
      RequeuedClass(rows, k);
      RequeuedCounts(rows, k);
    }
  }

  lemma NobodyLeft()
    ensures Persons([]) == {} && Sorted({}) == []
  {
    assert AsKeys({}) == {};
  }

  /** The same rows later on: some may have been queued since. */
  ghost predicate QueuedSince(rows: seq<Row>, later: seq<Row>) {
    && |later| == |rows|
    && forall i :: 0 <= i < |rows| ==>
         later[i] == rows[i].(queued := later[i].queued) && (rows[i].queued ==> later[i].queued)
  }

  lemma LaterTwins(rows: seq<Row>, later: seq<Row>, m: Message)
    requires QueuedSince(rows, later)
    ensures HasLiveTwin(later, m) == HasLiveTwin(rows, m)
  {
    forall j | 0 <= j < |rows| ensures LiveTwin(later[j], m) == LiveTwin(rows[j], m) {
      assert later[j].message == rows[j].message;
    }
  }

  lemma {:induction false} LaterCounts(rows: seq<Row>, later: seq<Row>, n: nat)
    requires QueuedSince(rows, later) && n <= |rows|
    requires Select(rows, rows[..n], Eligible) == []
    ensures forall c: Class :: |Select(later, later[..n], c)| == |Select(rows, rows[..n], c)|
  {
    hide Classify, Select;
    if n == 0 {
      Beginning(rows);
      Beginning(later);
    } else {
      var k: nat := n - 1;
      forall c: Class { SelectNext(rows, k, c); }
      forall c: Class { SelectNext(later, k, c); }
      LaterClass(rows, later, k);
      LaterCounts(rows, later, k);
      assert !Classify(rows, rows[k]).Eligible?;
      forall c: Class ensures |Select(later, later[..n], c)| == |Select(rows, rows[..n], c)| {
        assert n == k + 1 && |Select(later, later[..k], c)| == |Select(rows, rows[..k], c)|;
      }
    }
  }

  /** Being queued matters only to a row that would be eligible. */
  lemma LaterClass(rows: seq<Row>, later: seq<Row>, i: nat)
    requires QueuedSince(rows, later) && i < |rows|
    ensures !Classify(rows, rows[i]).Eligible? ==> Classify(later, later[i]) == Classify(rows, rows[i])
  {
    hide ValidMessage, HasLiveTwin;
    LaterTwins(rows, later, rows[i].message);
    assert later[i].message == rows[i].message;
  }

  /** Nothing is eligible twice: what was queued counts as queued, and the rest is judged as before. */
  lemma NextPreview(rows: seq<Row>, later: seq<Row>, p: Preview, next: Preview, terminal: Serial, route: Route,
                    from: int, until: int)
    requires IsPreview(p, rows, terminal, route, from, until) && QueuedSince(Requeued(rows), later)
    requires IsPreview(next, later, terminal, route, from, until)
    ensures next.eligible == 0 && next.candidates == [] && next.identities == []
    ensures next.alreadyQueued == p.alreadyQueued + p.eligible
    ensures next.duplicateSources == p.duplicateSources && next.invalid == p.invalid
  {
    hide Select, Classify, Requeued, QueuedSince, TotalEvents;
    assert rows[..|rows|] == rows && Requeued(rows)[..|rows|] == Requeued(rows);
    RequeuedCounts(rows, |rows|);
    LaterCounts(Requeued(rows), later, |rows|);
    assert later[..|rows|] == later by { SameLength(Requeued(rows), later); }
    assert |Select(later, later[..|rows|], Eligible)| == 0;
    NobodyLeft();
  }

  lemma SameLength(rows: seq<Row>, later: seq<Row>)
    requires QueuedSince(rows, later)
    ensures |later| == |rows|
  {
  }

  // ----- The pass ------------------------------------------------------------

  datatype Refusal = TooLarge

  /** Live rows come before retained ones, as the query orders them. */
  predicate LiveFirst(rows: seq<Row>) {
    forall i, j :: 0 <= i < j < |rows| && rows[j].message.source.PushSDK? ==> rows[i].message.source.PushSDK?
  }

  /** The scans of valid live rows with a serial number. */
  ghost function SeenIn(part: seq<Row>): set<Scan> {
    set i | 0 <= i < |part| && LiveTwin(part[i], part[i].message) :: part[i].message.scan
  }

  lemma SeenNext(part: seq<Row>, row: Row)
    ensures SeenIn(part + [row]) == SeenIn(part) + if LiveTwin(row, row.message) then {row.message.scan} else {}
  {
    var longer := part + [row];
    assert forall i :: 0 <= i < |part| ==> longer[i] == part[i];
    forall scan | scan in SeenIn(part) ensures scan in SeenIn(longer) {
      var i :| 0 <= i < |part| && LiveTwin(part[i], part[i].message) && part[i].message.scan == scan;
      assert LiveTwin(longer[i], longer[i].message);
    }
    assert longer[|part|] == row;
  }

  /** When a retained row is reached, every live row has been seen, so the pass classifies as the rule does. */
  lemma PassClassifies(rows: seq<Row>, i: nat)
    requires i < |rows| && LiveFirst(rows)
    ensures var m := rows[i].message;
            Classify(rows, rows[i]) ==
              if !ValidMessage(m) then Invalid
              else if m.scan.serial.Some? && m.source.ISAPI? && m.scan in SeenIn(rows[..i]) then DuplicateSource
              else if rows[i].queued then AlreadyQueued
              else Eligible
  {
    hide ValidMessage;
    var m := rows[i].message;
    if HasLiveTwin(rows, m) && m.source.ISAPI? {
      var j :| 0 <= j < |rows| && LiveTwin(rows[j], m);
      assert j < i && rows[..i][j] == rows[j] && LiveTwin(rows[j], rows[j].message);
    }
    if m.scan.serial.Some? && m.scan in SeenIn(rows[..i]) {
      var j :| 0 <= j < i && LiveTwin(rows[..i][j], rows[..i][j].message) && rows[..i][j].message.scan == m.scan;
      assert LiveTwin(rows[j], m);
    }
  }

  lemma SelectNext(rows: seq<Row>, i: nat, c: Class)
    requires i < |rows|
    ensures Select(rows, rows[..i + 1], c)
         == Select(rows, rows[..i], c) + if Classify(rows, rows[i]) == c then [rows[i]] else []
  {
    assert rows[..i + 1][..i] == rows[..i];
  }

  ghost predicate NoRepeats(names: seq<string>) {
    forall i, j :: 0 <= i < j < |names| ==> names[i] != names[j]
  }

  /** An identity while the pass is under way: its names are distinct but not sorted yet. */
  ghost predicate IsTally(t: Identity, q: seq<Row>, person: string)
    requires Dated(q)
  {
    && t.employee == person && t.events == |ScansOf(q, person)|
    && IsMin(t.firstScan, InstantsOf(q, person)) && IsMax(t.lastScan, InstantsOf(q, person))
    && NoRepeats(t.names) && forall name :: name in t.names <==> name in NamesOf(q, person)
  }

  ghost predicate Tallied(tallies: map<string, Identity>, q: seq<Row>)
    requires Dated(q)
  {
    && tallies.Keys == Persons(q)
    && forall person :: person in tallies ==> IsTally(tallies[person], q, person)
  }

  lemma SetsGrow(q: seq<Row>, row: Row, person: string)
    requires Dated(q) && DatedRow(row) && Dated(q + [row])
    ensures InstantsOf(q + [row], person)
         == InstantsOf(q, person) + if OfPerson(row, person) then {row.message.scan.occurredAt.value} else {}
    ensures NamesOf(q + [row], person)
         == NamesOf(q, person)
          + if OfPerson(row, person) && row.message.scan.name.Some? then {row.message.scan.name.value} else {}
    ensures Persons(q + [row]) == Persons(q) + {row.message.scan.employee.value}
  {
    var longer := q + [row];
    assert forall i :: 0 <= i < |q| ==> longer[i] == q[i];
    assert longer[|q|] == row;
    forall name | name in NamesOf(q, person) ensures name in NamesOf(longer, person) {
      var i :| 0 <= i < |q| && OfPerson(q[i], person) && q[i].message.scan.name == Some(name);
      assert OfPerson(longer[i], person);
    }
    forall at | at in InstantsOf(q, person) ensures at in InstantsOf(longer, person) {
      var i :| 0 <= i < |q| && OfPerson(q[i], person) && q[i].message.scan.occurredAt.value == at;
      assert OfPerson(longer[i], person);
    }
    forall p | p in Persons(q) ensures p in Persons(longer) {
      var i :| 0 <= i < |q| && q[i].message.scan.employee.value == p;
      assert longer[i].message.scan.employee.value == p;
    }
  }

  lemma NobodyYet(q: seq<Row>, person: string)
    requires Dated(q) && person !in Persons(q)
    ensures ScansOf(q, person) == {} && InstantsOf(q, person) == {} && NamesOf(q, person) == {}
  {
    forall i | 0 <= i < |q| ensures !OfPerson(q[i], person) {
      assert q[i].message.scan.employee.value in Persons(q);
    }
  }

  lemma OthersKeepTally(t: Identity, q: seq<Row>, row: Row, person: string)
    requires Dated(q) && DatedRow(row) && Dated(q + [row]) && IsTally(t, q, person) && !OfPerson(row, person)
    ensures IsTally(t, q + [row], person)
  {
    hide InstantsOf, NamesOf, ScansOf;
    SetsGrow(q, row, person);
    ScansGrow(q, row, person);
  }

  method AddName(names: seq<string>, name: string) returns (after: seq<string>)
    requires NoRepeats(names)
    ensures NoRepeats(after) && forall n :: n in after <==> n in names || n == name
  {
    var i, found := 0, false;
    while i < |names| && !found
      invariant 0 <= i <= |names| && (found ==> name in names) && (!found ==> name !in names[..i])
    {
      found := names[i] == name;
      i := i + 1;
    }
    after := if found then names else names + [name];
  }

  /** First and last of the instants, with one more. */
  lemma ExtremesGrow(first: int, last: int, instants: set<int>, at: int)
    ensures IsMin(first, instants) || (instants == {} && first == at) ==>
              IsMin(if at < first then at else first, instants + {at})
    ensures IsMax(last, instants) || (instants == {} && last == at) ==>
              IsMax(if at > last then at else last, instants + {at})
  {
  }

  /** The identity of the person in `row`, counting that row too. */
  method Count(tallies: map<string, Identity>, row: Row, ghost q: seq<Row>) returns (t: Identity)
    requires Dated(q) && Tallied(tallies, q) && DatedRow(row) && Dated(q + [row])
    ensures IsTally(t, q + [row], row.message.scan.employee.value)
  {
    hide InstantsOf, NamesOf, ScansOf, Persons, IsMin, IsMax;
    var person, at := row.message.scan.employee.value, row.message.scan.occurredAt.value;
    if person in tallies {
      t := tallies[person];
    } else {
      NobodyYet(q, person);
      t := Identity(person, [], 0, at, at);
    }
    t := t.(events := t.events + 1);
    ExtremesGrow(t.firstScan, t.lastScan, InstantsOf(q, person), at);
    if at < t.firstScan {
      t := t.(firstScan := at);
    }
    if at > t.lastScan {
      t := t.(lastScan := at);
    }
    if row.message.scan.name.Some? {
      var names := AddName(t.names, row.message.scan.name.value);
      t := t.(names := names);
    }
    SetsGrow(q, row, person);
    ScansGrow(q, row, person);
  }

  /** Adds one eligible row to its person's identity. */
  method Tally(tallies: map<string, Identity>, row: Row, ghost q: seq<Row>) returns (after: map<string, Identity>)
    requires Dated(q) && Tallied(tallies, q) && DatedRow(row) && Dated(q + [row])
    ensures Tallied(after, q + [row])
  {
    hide IsTally, Persons;
    var person := row.message.scan.employee.value;
    var t := Count(tallies, row, q);
    after := tallies[person := t];
    SetsGrow(q, row, person);
    forall p | p in after ensures IsTally(after[p], q + [row], p) {
      if p != person {
        OthersKeepTally(tallies[p], q, row, p);
      }
    }
  }

  method SortTexts(texts: set<string>) returns (q: seq<string>)
    ensures q == Sorted(texts)
  {
    var keys := Sort(set t | t in texts :: Key(0, t));
    q := Texts(keys);
  }

  method SortNames(t: Identity, ghost q: seq<Row>, ghost person: string) returns (identity: Identity)
    requires Dated(q) && IsTally(t, q, person)
    ensures IsIdentity(identity, q, person)
  {
    hide InstantsOf, NamesOf, ScansOf, Sorted;
    var names := SortTexts(set name | name in t.names);
    assert (set name | name in t.names) == NamesOf(q, person);
    identity := t.(names := names);
  }

  /** Sorts the names of each identity, and the identities by employee number. */
  method Arrange(tallies: map<string, Identity>, ghost q: seq<Row>) returns (identities: seq<Identity>)
    requires Dated(q) && Tallied(tallies, q)
    ensures AreIdentities(identities, q)
  {
    hide IsIdentity, IsTally, Persons, Sorted;
    var persons := SortTexts(tallies.Keys);
    identities := [];
    var i := 0;
    while i < |persons|
      invariant 0 <= i <= |persons| && |identities| == i
      invariant forall k :: 0 <= k < i ==> IsIdentity(identities[k], q, persons[k])
    {
      assert persons[i] in persons;
      var identity := SortNames(tallies[persons[i]], q, persons[i]);
      identities := identities + [identity];
      i := i + 1;
    }
  }

  lemma {:induction false} SelectedAreDated(rows: seq<Row>, part: seq<Row>)
    ensures Dated(Select(rows, part, Eligible))
    decreases |part|
  {
    if part != [] {
      SelectedAreDated(rows, part[..|part| - 1]);
    }
  }

  /** One pass over the rows in query order. */
  method MakePreview(rows: seq<Row>, terminal: Serial, route: Route, from: int, until: int)
    returns (p: Result<Preview, Refusal>)
    requires LiveFirst(rows)
    ensures if |rows| > 10000 then p == Err(TooLarge)
            else p.Ok? && IsPreview(p.value, rows, terminal, route, from, until)
  {
    hide Classify, Select, ValidMessage, SeenIn, FromSource, Tallied, AreIdentities;
    var seen: set<Scan> := {};
    var tallies: map<string, Identity> := map[];
    var candidates: seq<Candidate> := [];
    var alreadyQueued, duplicateSources, invalid, pushSdkEvents, isapiEvents := 0, 0, 0, 0, 0;
    ghost var q: seq<Row> := [];
    Beginning(rows);
    var i := 0;
    while i < |rows|
      invariant 0 <= i <= |rows| && i <= MAX_ROWS && seen == SeenIn(rows[..i])
      invariant q == Select(rows, rows[..i], Eligible) && candidates == CandidatesOf(q)
      invariant alreadyQueued == |Select(rows, rows[..i], AlreadyQueued)|
      invariant duplicateSources == |Select(rows, rows[..i], DuplicateSource)|
      invariant invalid == |Select(rows, rows[..i], Invalid)|
      invariant pushSdkEvents == FromSource(q, PushSDK) && isapiEvents == FromSource(q, ISAPI)
      invariant Dated(q) && Tallied(tallies, q)
    {
      if i + 1 > MAX_ROWS {
        return Err(TooLarge);
      }
      var row := rows[i];
      var m := row.message;
      PassClassifies(rows, i);
      forall c: Class { SelectNext(rows, i, c); }
      assert rows[..i + 1] == rows[..i] + [row];
      SeenNext(rows[..i], row);
      i := i + 1;
      if !ValidMessage(m) {
        invalid := invalid + 1;
        continue;
      }
      if m.scan.serial.Some? {
        if m.source.ISAPI? && m.scan in seen {
          duplicateSources := duplicateSources + 1;
          continue;
        }
        if m.source.PushSDK? {
          seen := seen + {m.scan};
        }
      }
      if row.queued {
        alreadyQueued := alreadyQueued + 1;
        continue;
      }
      SelectedAreDated(rows, rows[..i]);
      assert (q + [row])[|q|] == row;
      tallies := Tally(tallies, row, q);
      SourceNext(q, row, PushSDK);
      SourceNext(q, row, ISAPI);
      q := q + [row];
      candidates := candidates + [Candidate(row.id, m)];
      if m.source.PushSDK? {
        pushSdkEvents := pushSdkEvents + 1;
      } else {
        isapiEvents := isapiEvents + 1;
      }
    }
    assert rows[..i] == rows;
    var identities := Arrange(tallies, q);
    p := Ok(Preview(terminal, route, from, until, |candidates|, alreadyQueued, duplicateSources, invalid,
                    pushSdkEvents, isapiEvents, identities, candidates));
  }

  lemma Beginning(rows: seq<Row>)
    ensures SeenIn(rows[..0]) == {} && forall c: Class :: Select(rows, rows[..0], c) == []
    ensures Tallied(map[], []) && FromSource([], PushSDK) == 0 == FromSource([], ISAPI)
  {
  }

  lemma SourceNext(q: seq<Row>, row: Row, source: Source)
    ensures FromSource(q + [row], source) == FromSource(q, source) + if row.message.source == source then 1 else 0
  {
    assert (q + [row])[..|q|] == q;
  }
}
