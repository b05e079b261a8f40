/**
 The immutable attendance message that is delivered to a school server, where it
 may go, and which archived record may become one
 (internal/store/event_deliveries.go, internal/store/event_backfills.go).
 A message stands for its JSON encoding, which is injective.
 */
module Messages {
  import opened Wrappers
  import opened Terminals

  datatype Source = PushSDK | ISAPI

  datatype Scan = Scan(occurredAt: Option<int>, employee: Option<string>, name: Option<string>, serial: Option<int>)

  datatype Message = Message(source: Source, eventId: string, terminal: Serial, state: Option<string>, scan: Scan)

  datatype Route = Route(endpoint: string, key: string, enabled: bool)

  /** Only a face recognised at an active terminal becomes attendance. */
  predicate Attendance(major: int, sub: int) { major == 5 && sub == 75 }

  predicate IsIdentifier(text: string) {
    && 1 <= |text| <= 64
    && forall i :: 0 <= i < |text| ==> var c := text[i];
         'A' <= c <= 'Z' || 'a' <= c <= 'z' || '0' <= c <= '9' || c in "._:-"
  }

  predicate IsSpace(c: char) {
    || c in " \t\n\r" || c in ['\U{000B}', '\U{000C}', '\U{0085}', '\U{00A0}', '\U{1680}']
    || '\U{2000}' <= c <= '\U{200A}' || c in ['\U{2028}', '\U{2029}', '\U{202F}', '\U{205F}', '\U{3000}']
  }

  /** A record that may be delivered: identified, dated, and naming a person in a usable way. */
  predicate ValidMessage(m: Message) {
    && IsIdentifier(m.eventId) && m.scan.occurredAt.Some? && m.scan.employee.Some?
    && 1 <= |m.scan.employee.value| <= 32 && (forall c :: c in m.scan.employee.value ==> !IsSpace(c))
    && (m.scan.name.Some? ==> |m.scan.name.value| <= 100)
    && (m.scan.serial.Some? ==> m.scan.serial.value >= 0)
  }

  /** A letter, a digit, a full stop, an underscore, a colon or a hyphen, by its code. */
  predicate IdentifierCode(code: int) {
    65 <= code <= 90 || 97 <= code <= 122 || 48 <= code <= 57 || code == 46 || code == 95 || code == 58 || code == 45
  }

  /** The code points with the Unicode property White_Space. */
  predicate SpaceCode(code: int) {
    || 9 <= code <= 13 || code == 32 || code == 133 || code == 160 || code == 5760
    || 8192 <= code <= 8202 || code == 8232 || code == 8233 || code == 8239 || code == 8287 || code == 12288
  }

  /** An identity of 1 to 64 such characters, an instant, and a person of 1 to 32 characters without white space. */
  predicate Deliverable(eventId: string, scan: Scan) {
    && 1 <= |eventId| <= 64 && (forall i :: 0 <= i < |eventId| ==> IdentifierCode(eventId[i] as int))
    && scan.occurredAt.Some? && scan.employee.Some? && 1 <= |scan.employee.value| <= 32
    && (forall i :: 0 <= i < |scan.employee.value| ==> !SpaceCode(scan.employee.value[i] as int))
    && (scan.name.None? || |scan.name.value| <= 100)
    && (scan.serial.None? || scan.serial.value >= 0)
  }

  lemma SpaceIff(c: char)
    ensures IsSpace(c) <==> SpaceCode(c as int)
  {
  }

  lemma SpacelessIff(text: string)
    ensures (forall c :: c in text ==> !IsSpace(c)) <==>
            forall i :: 0 <= i < |text| ==> !SpaceCode(text[i] as int)
  {
    hide IsSpace, SpaceCode;
    forall c ensures IsSpace(c) <==> SpaceCode(c as int) {
      SpaceIff(c);
    }
    if forall c :: c in text ==> !IsSpace(c) {
      forall i | 0 <= i < |text| ensures !SpaceCode(text[i] as int) {
        assert text[i] in text;
      }
    }
  }

  lemma IdentifierIff(text: string)
    ensures IsIdentifier(text) <==>
            1 <= |text| <= 64 && forall i :: 0 <= i < |text| ==> IdentifierCode(text[i] as int)
  {
    assert forall c: char :: c in "._:-" <==> c == '.' || c == '_' || c == ':' || c == '-';
    if 1 <= |text| <= 64 && forall i :: 0 <= i < |text| ==> IdentifierCode(text[i] as int) {
      forall i | 0 <= i < |text|
        ensures var c := text[i];
                'A' <= c <= 'Z' || 'a' <= c <= 'z' || '0' <= c <= '9' || c in "._:-"
      {
        assert IdentifierCode(text[i] as int);
      }
    }
  }

  /** Exactly the deliverable messages are valid. */
  lemma ValidIffDeliverable(m: Message)
    ensures ValidMessage(m) <==> Deliverable(m.eventId, m.scan)
  {
    hide IsIdentifier, IsSpace, SpaceCode, IdentifierCode;
    IdentifierIff(m.eventId);
    if m.scan.employee.Some? {
      SpacelessIff(m.scan.employee.value);
    }
  }
}
