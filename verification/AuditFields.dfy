/** Which fields of an audit event may contain separators if its content is to say what they are. */
module AuditFields {
  import opened AuditEncoding
  import opened AuditChain
  import opened AuditService

  /** Subsystem, severity and outcome are drawn from fixed lists. */
  predicate Closed(i: int) { i == 4 || i == 7 || i == 8 }

  ghost predicate OpenOnly(e: AuditEvent, open: set<int>) {
    forall i | 0 <= i < 12 && i !in open :: Clean(Fields(e)[i])
  }

  /** Valid events with separators in no other fields than these are told apart by their contents. */
  ghost predicate EventsReadable(open: set<int>) {
    forall a, b | Errors(a) == [] && Errors(b) == [] && OpenOnly(a, open) && OpenOnly(b, open) && Content(a) == Content(b) ::
      Fields(a) == Fields(b)
  }

  /** Two different fields outside the fixed lists. */
  predicate OpenPair(open: set<int>, i: int, j: int) {
    0 <= i < j < 12 && i in open && j in open && !Closed(i) && !Closed(j)
  }

  lemma ClosedFieldIsClean(e: AuditEvent, i: int)
    requires Errors(e) == [] && Closed(i)
    ensures Clean(Fields(e)[i])
  {
    if i == 4 {
      assert e.subsystem in SUBSYSTEMS;
      hide Errors, SeverityText, OutcomeText;
      SubsystemsAreClean(e.subsystem);
    }
    hide Errors;
  }

  lemma SubsystemsAreClean(s: string)
    requires s in SUBSYSTEMS
    ensures Clean(s)
  {}

  function Set(e: AuditEvent, i: int, text: string): AuditEvent {
    match i
    case 0 => e.(auditId := text)
    case 1 => e.(correlationId := text)
    case 2 => e.(timestamp := text)
    case 3 => e.(machineId := text)
    case 5 => e.(actor := text)
    case 6 => e.(eventType := text)
    case 9 => e.(description := text)
    case 10 => e.(metadataJson := text)
    case 11 => e.(previousHash := text)
    case _ => e
  }

  lemma SetSetsOneField(e: AuditEvent, i: int, text: string)
    requires 0 <= i < 12 && !Closed(i)
    ensures Fields(Set(e, i, text)) == Fields(e)[i := text]
    ensures Errors(e) == [] && text != "" ==> Errors(Set(e, i, text)) == []
  {}

  const PLAIN := AuditEvent("x", "x", "x", "x", "audit", "x", "x", Info, Success, "x", "x", "x", "x")

  lemma PlainIsPlain()
    ensures Errors(PLAIN) == [] && forall i | 0 <= i < 12 :: Clean(Fields(PLAIN)[i])
  {}

  /** For any two fields outside the fixed lists, neighbours or not, two valid events that differ in them
      and have the same content. */
  lemma OpenPairCollides(open: set<int>, i: int, j: int) returns (a: AuditEvent, b: AuditEvent)
    requires OpenPair(open, i, j)
    ensures Errors(a) == [] && Errors(b) == [] && OpenOnly(a, open) && OpenOnly(b, open)
    ensures Content(a) == Content(b) && Fields(a)[i] != Fields(b)[i] && Fields(a)[j] != Fields(b)[j]
  {
    var long := TwoPositionsCollide(Fields(PLAIN), i, j, "x");
    a, b := Set(Set(PLAIN, i, "x"), j, long), Set(Set(PLAIN, i, long), j, "x");
    PlainIsPlain();
    hide Errors, Fields, Set, Clean, Join;
    SetSetsOneField(PLAIN, i, "x");
    SetSetsOneField(Set(PLAIN, i, "x"), j, long);
    SetSetsOneField(PLAIN, i, long);
    SetSetsOneField(Set(PLAIN, i, long), j, "x");
  }

  /** Exactly which fields may contain separators together: at most one, beside those from fixed lists. */
  lemma EventsReadableIffNoOpenPair(open: set<int>)
    ensures EventsReadable(open) <==> !exists i, j :: OpenPair(open, i, j)
  {
    if i, j :| OpenPair(open, i, j) {
      var a, b := OpenPairCollides(open, i, j);
    } else {
      var p := if exists i :: 0 <= i < 12 && i in open && !Closed(i) then
                 var i :| 0 <= i < 12 && i in open && !Closed(i); i
               else -1;
      forall i | 0 <= i < 12 && i in open && !Closed(i) ensures i == p {
        assert !OpenPair(open, i, p) && !OpenPair(open, p, i);
      }
      forall a, b | Errors(a) == [] && Errors(b) == [] && OpenOnly(a, open) && OpenOnly(b, open) && Content(a) == Content(b)
        ensures Fields(a) == Fields(b)
      {
        OnlyOneOpen(a, open, p);
        OnlyOneOpen(b, open, p);
        JoinInjective(Fields(a), Fields(b), p);
      }
    }
  }

  lemma OnlyOneOpen(e: AuditEvent, open: set<int>, p: int)
    requires Errors(e) == [] && OpenOnly(e, open)
    requires forall i | 0 <= i < 12 && i in open && !Closed(i) :: i == p
    ensures CleanExcept(Fields(e), p)
  {
    hide Fields, Errors, Clean;
    forall i | 0 <= i < 12 && i != p ensures Clean(Fields(e)[i]) {
      if i in open {
        ClosedFieldIsClean(e, i);
      }
    }
  }
}
