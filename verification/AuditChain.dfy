/** The hash chain of audit events: how it is written, verified and what its verification is
    worth. The hash is a parameter; what is assumed of it stands in each theorem. */
module AuditChain {
  import opened AuditEncoding

  type Hash = string -> string

  datatype AuditSeverity = Debug | Info | Warning | Error | Critical

  datatype AuditOutcome = Success | Failure | Pending | Skipped

  function SeverityText(s: AuditSeverity): string {
    match s
    case Debug => "debug"
    case Info => "info"
    case Warning => "warning"
    case Error => "error"
    case Critical => "critical"
  }

  function OutcomeText(o: AuditOutcome): string {
    match o
    case Success => "success"
    case Failure => "failure"
    case Pending => "pending"
    case Skipped => "skipped"
  }

  /** The timestamp is kept in its ISO text form. */
  datatype AuditEvent = AuditEvent(
    auditId: string, correlationId: string, timestamp: string, machineId: string, subsystem: string,
    actor: string, eventType: string, severity: AuditSeverity, outcome: AuditOutcome,
    description: string, metadataJson: string, currentHash: string, previousHash: string)

  function Fields(e: AuditEvent): (f: seq<string>)
    ensures |f| == 12
  {
    [e.auditId, e.correlationId, e.timestamp, e.machineId, e.subsystem, e.actor, e.eventType,
     SeverityText(e.severity), OutcomeText(e.outcome), e.description, e.metadataJson, e.previousHash]
  }

  function Content(e: AuditEvent): string { Join(Fields(e)) }

  /** Each word stands for one severity, and so for the outcomes. */
  lemma WordsInContent(s: AuditSeverity, o: AuditOutcome)
    ensures SeverityText(s) == "debug" <==> s == Debug
    ensures SeverityText(s) == "info" <==> s == Info
    ensures SeverityText(s) == "warning" <==> s == Warning
    ensures SeverityText(s) == "error" <==> s == Error
    ensures SeverityText(s) == "critical" <==> s == Critical
    ensures OutcomeText(o) == "success" <==> o == Success
    ensures OutcomeText(o) == "failure" <==> o == Failure
    ensures OutcomeText(o) == "pending" <==> o == Pending
    ensures OutcomeText(o) == "skipped" <==> o == Skipped
  {}

  lemma JoinLater(fields: seq<string>, i: nat)
    requires i + 1 < |fields|
    ensures Join(fields[i..]) == fields[i] + "|" + Join(fields[i + 1..])
  {
    var rest := fields[i + 1..];
    assert fields[i..] == [fields[i]] + rest;
    assert fields[i..][1..] == rest;
  }

  lemma LastSix(f: seq<string>)
    requires |f| == 12
    ensures Join(f[6..]) == f[6] + "|" + (f[7] + "|" + (f[8] + "|" + (f[9] + "|" + (f[10] + "|" + f[11]))))
  {
    JoinLater(f, 6);
    JoinLater(f, 7);
    JoinLater(f, 8);
    JoinLater(f, 9);
    JoinLater(f, 10);
    assert f[11..] == [f[11]];
  }

  /** The content as text. */
  lemma ContentInFull(e: AuditEvent)
    ensures Content(e) ==
            e.auditId + "|" + (e.correlationId + "|" + (e.timestamp + "|" + (e.machineId + "|" + (e.subsystem + "|" + (
            e.actor + "|" + (e.eventType + "|" + (SeverityText(e.severity) + "|" + (OutcomeText(e.outcome) + "|" + (
            e.description + "|" + (e.metadataJson + "|" + e.previousHash))))))))))
  {
    var f := Fields(e);
    hide SeverityText, OutcomeText;
    assert f[0..] == f;
    LastSix(f);
    JoinLater(f, 0);
    JoinLater(f, 1);
    JoinLater(f, 2);
    JoinLater(f, 3);
    JoinLater(f, 4);
    JoinLater(f, 5);
    hide Join;
  }

  function ComputeHash(hash: Hash, e: AuditEvent): string { hash(Content(e)) }

  predicate VerifyIntegrity(hash: Hash, e: AuditEvent) { e.currentHash == ComputeHash(hash, e) }

  predicate Linked(events: seq<AuditEvent>, i: nat)
    requires i < |events|
  {
    i == 0 || events[i].previousHash == events[i - 1].currentHash
  }

  /** Every event carries its own hash and the hash of the event before it. */
  ghost predicate ChainOk(hash: Hash, events: seq<AuditEvent>) {
    && (forall i | 0 <= i < |events| :: VerifyIntegrity(hash, events[i]))
    && (forall i | 0 <= i < |events| :: Linked(events, i))
  }

  /** The event to blame: the first with a bad hash of its own or, when there is none, the
      first with a broken link. */
  ghost predicate Blamed(hash: Hash, events: seq<AuditEvent>, i: nat) {
    i < |events| &&
    if forall j | 0 <= j < |events| :: VerifyIntegrity(hash, events[j]) then
      !Linked(events, i) && forall j | 0 <= j < i :: Linked(events, j)
    else
      !VerifyIntegrity(hash, events[i]) && forall j | 0 <= j < i :: VerifyIntegrity(hash, events[j])
  }

  method VerifyChain(hash: Hash, events: seq<AuditEvent>) returns (valid: bool, failedId: string)
    ensures valid <==> ChainOk(hash, events)
    ensures valid ==> failedId == ""
    ensures !valid ==> exists i: nat :: Blamed(hash, events, i) && failedId == events[i].auditId
  {
    if events == [] {
      return true, "";
    }
    for i := 0 to |events|
      invariant forall j | 0 <= j < i :: VerifyIntegrity(hash, events[j])
    {
      if !VerifyIntegrity(hash, events[i]) {
        assert Blamed(hash, events, i);
        return false, events[i].auditId;
      }
    }
    for i := 1 to |events|
      invariant forall j | 0 <= j < i :: Linked(events, j)
    {
      if events[i].previousHash != events[i - 1].currentHash {
        assert !Linked(events, i);
        assert Blamed(hash, events, i);
        return false, events[i].auditId;
      }
    }
    return true, "";
  }

  /** The blamed event is unique and exists exactly in the chains that are not in order. */
  lemma BlamedIsUnique(hash: Hash, events: seq<AuditEvent>, i: nat, j: nat)
    requires Blamed(hash, events, i) && Blamed(hash, events, j)
    ensures i == j && !ChainOk(hash, events)
  {}

  /** A concatenation is accepted iff both parts are and the joining link matches. */
  lemma ConcatenationOk(hash: Hash, a: seq<AuditEvent>, b: seq<AuditEvent>)
    ensures ChainOk(hash, a + b) <==>
            && ChainOk(hash, a) && ChainOk(hash, b)
            && (a != [] && b != [] ==> b[0].previousHash == a[|a| - 1].currentHash)
  {
    LinksOfParts(a, b);
    var c := a + b;
    hide VerifyIntegrity, Linked;
    assert forall i | 0 <= i < |a| :: c[i] == a[i];
    assert forall i | 0 <= i < |b| :: c[|a| + i] == b[i];
    if ChainOk(hash, c) {
      forall i: nat | i < |b| ensures VerifyIntegrity(hash, b[i]) && Linked(b, i) {
        assert VerifyIntegrity(hash, c[|a| + i]) && Linked(c, |a| + i);
      }
    } else if ChainOk(hash, a) && ChainOk(hash, b) {
      forall i: nat | i < |c| ensures VerifyIntegrity(hash, c[i]) {
        assert c[i] == if i < |a| then a[i] else b[i - |a|];
      }
      forall i: nat | |a| < i < |c| ensures Linked(c, i) {
        assert Linked(b, i - |a|) && c[|a| + (i - |a|)] == c[i];
      }
    }
  }

  lemma LinksOfParts(a: seq<AuditEvent>, b: seq<AuditEvent>)
    ensures forall i | 0 <= i < |a| :: Linked(a + b, i) <==> Linked(a, i)
    ensures forall i | 0 < i < |b| :: Linked(b, i) <==> Linked(a + b, |a| + i)
    ensures b != [] ==> Linked(b, 0) && (Linked(a + b, |a|) <==> a == [] || b[0].previousHash == a[|a| - 1].currentHash)
  {}

  // ----- what an accepted chain is worth -----

  /** No two of these texts have the same hash. */
  ghost predicate CollisionFree(hash: Hash, texts: set<string>) {
    forall x, y | x in texts && y in texts && hash(x) == hash(y) :: x == y
  }

  /** A hexadecimal digest: never empty, and without separators. */
  ghost predicate DigestLike(hash: Hash) {
    forall x :: hash(x) != "" && Clean(hash(x))
  }

  function Contents(events: seq<AuditEvent>): set<string> {
    set i | 0 <= i < |events| :: Content(events[i])
  }

  /** The previous hash can be read back from the content when it has no separators. */
  lemma PreviousHashFromContent(a: AuditEvent, b: AuditEvent)
    requires Content(a) == Content(b) && Clean(a.previousHash) && Clean(b.previousHash)
    ensures a.previousHash == b.previousHash
  {
    var f, g := Fields(a), Fields(b);
    JoinLast(f);
    JoinLast(g);
    SplitLast(Join(f[..11]), f[11], Join(g[..11]), g[11]);
  }

  /** Equal own hashes mean equal contents. */
  lemma SameHashSameContent(hash: Hash, a: seq<AuditEvent>, b: seq<AuditEvent>, i: nat, j: nat)
    requires ChainOk(hash, a) && ChainOk(hash, b) && i < |a| && j < |b|
    requires CollisionFree(hash, Contents(a) + Contents(b)) && a[i].currentHash == b[j].currentHash
    ensures Content(a[i]) == Content(b[j])
  {}

  /** Equal contents mean equal hashes one event earlier. */
  lemma SameContentSameHashBefore(hash: Hash, a: seq<AuditEvent>, b: seq<AuditEvent>, i: nat, j: nat)
    requires ChainOk(hash, a) && ChainOk(hash, b) && DigestLike(hash)
    requires 0 < i < |a| && 0 < j < |b| && Content(a[i]) == Content(b[j])
    ensures a[i - 1].currentHash == b[j - 1].currentHash
  {
    hide Content;
    assert VerifyIntegrity(hash, a[i - 1]) && VerifyIntegrity(hash, b[j - 1]);
    assert Linked(a, i) && Linked(b, j);
    PreviousHashFromContent(a[i], b[j]);
  }

  /** Counted from the end, two accepted chains that end in the same hash have the same hashes
      and the same contents as far as both go. */
  lemma {:induction false} SameEndSameChain(hash: Hash, a: seq<AuditEvent>, b: seq<AuditEvent>, k: nat)
    requires ChainOk(hash, a) && ChainOk(hash, b) && k < |a| && k < |b|
    requires CollisionFree(hash, Contents(a) + Contents(b)) && DigestLike(hash)
    requires a[|a| - 1].currentHash == b[|b| - 1].currentHash
    ensures a[|a| - 1 - k].currentHash == b[|b| - 1 - k].currentHash
    ensures Content(a[|a| - 1 - k]) == Content(b[|b| - 1 - k])
  {
    hide ChainOk, Content, CollisionFree, DigestLike;
    if k > 0 {
      SameEndSameChain(hash, a, b, k - 1);
      SameContentSameHashBefore(hash, a, b, |a| - k, |b| - k);
    }
    SameHashSameContent(hash, a, b, |a| - 1 - k, |b| - 1 - k);
  }

  lemma SeverityTextsDiffer(a: AuditSeverity, b: AuditSeverity)
    ensures SeverityText(a) == SeverityText(b) <==> a == b
  {}

  lemma OutcomeTextsDiffer(a: AuditOutcome, b: AuditOutcome)
    ensures OutcomeText(a) == OutcomeText(b) <==> a == b
  {}

  /** Events with separators in one common field at most are determined by content and hash. */
  lemma SameContentSameEvent(a: AuditEvent, b: AuditEvent, p: int)
    requires Content(a) == Content(b) && a.currentHash == b.currentHash
    requires CleanExcept(Fields(a), p) && CleanExcept(Fields(b), p)
    ensures a == b
  {
    var f, g := Fields(a), Fields(b);
    JoinInjective(f, g, p);
    assert f[0] == g[0] && f[1] == g[1] && f[2] == g[2] && f[3] == g[3] && f[4] == g[4] && f[5] == g[5];
    assert f[6] == g[6] && f[7] == g[7] && f[8] == g[8] && f[9] == g[9] && f[10] == g[10] && f[11] == g[11];
    SeverityTextsDiffer(a.severity, b.severity);
    OutcomeTextsDiffer(a.outcome, b.outcome);
  }

  /** A log as `record` starts it. */
  ghost predicate Genesis(events: seq<AuditEvent>) {
    events != [] ==> events[0].previousHash == ""
  }

  /** Two accepted logs that both start with an empty previous hash and end in the same hash
      are equally long, have the same hash everywhere and, when separators occur in one field
      at most, are the same log. */
  lemma SameEndSameLog(hash: Hash, a: seq<AuditEvent>, b: seq<AuditEvent>, p: int)
    requires ChainOk(hash, a) && ChainOk(hash, b) && a != [] && b != []
    requires Genesis(a) && Genesis(b)
    requires CollisionFree(hash, Contents(a) + Contents(b)) && DigestLike(hash)
    requires a[|a| - 1].currentHash == b[|b| - 1].currentHash
    ensures |a| == |b|
    ensures forall i | 0 <= i < |a| :: a[i].currentHash == b[i].currentHash && Content(a[i]) == Content(b[i])
    ensures (forall i | 0 <= i < |a| :: CleanExcept(Fields(a[i]), p) && CleanExcept(Fields(b[i]), p)) ==> a == b
  {
    hide ChainOk, Genesis, CollisionFree, DigestLike, Content, Contents, CleanExcept, Fields;
    NothingBeforeGenesis(hash, a, b);
    assert Contents(b) + Contents(a) == Contents(a) + Contents(b);
    NothingBeforeGenesis(hash, b, a);
    forall i | 0 <= i < |a|
      ensures a[i].currentHash == b[i].currentHash && Content(a[i]) == Content(b[i])
      ensures CleanExcept(Fields(a[i]), p) && CleanExcept(Fields(b[i]), p) ==> a[i] == b[i]
    {
      SameEndSameChain(hash, a, b, |a| - 1 - i);
      if CleanExcept(Fields(a[i]), p) && CleanExcept(Fields(b[i]), p) {
        SameContentSameEvent(a[i], b[i], p);
      }
    }
  }

  /** A log that starts with an empty previous hash is at least as long as any accepted chain
      that ends in the same hash. */
  lemma NothingBeforeGenesis(hash: Hash, a: seq<AuditEvent>, b: seq<AuditEvent>)
    requires ChainOk(hash, a) && ChainOk(hash, b) && a != [] && b != [] && Genesis(a)
    requires CollisionFree(hash, Contents(a) + Contents(b)) && DigestLike(hash)
    requires a[|a| - 1].currentHash == b[|b| - 1].currentHash
    ensures |b| <= |a|
  {
    if |a| < |b| {
      SameEndSameChain(hash, a, b, |a| - 1);
      var j := |b| - |a|;
      assert Linked(b, j) && VerifyIntegrity(hash, b[j - 1]);
      PreviousHashFromContent(a[0], b[j]);
    }
  }

  /** Whoever changes an accepted log and keeps its last hash is found out, or has found a
      collision. */
  lemma TamperingIsDetected(hash: Hash, a: seq<AuditEvent>, b: seq<AuditEvent>, p: int)
    requires ChainOk(hash, a) && Genesis(a) && Genesis(b) && a != [] && b != [] && a != b
    requires CollisionFree(hash, Contents(a) + Contents(b)) && DigestLike(hash)
    requires forall e | e in a + b :: CleanExcept(Fields(e), p)
    requires a[|a| - 1].currentHash == b[|b| - 1].currentHash
    ensures !ChainOk(hash, b)
  {
    if ChainOk(hash, b) {
      forall i | 0 <= i < |a| ensures CleanExcept(Fields(a[i]), p) { assert a[i] in a + b; }
      forall i | 0 <= i < |b| ensures CleanExcept(Fields(b[i]), p) { assert b[i] in a + b; }
      SameEndSameLog(hash, a, b, p);
    }
  }

  /** With separators in two fields the content is ambiguous: text moves from the description to
      the metadata and the event still carries a good hash, whatever the hash function is. */
  lemma SeparatorsInTwoFieldsHideChanges(hash: Hash, e: AuditEvent, first: string, second: string)
    requires VerifyIntegrity(hash, e) && e.description == first + [SEPARATOR] + second
    ensures var forged := e.(description := first, metadataJson := second + [SEPARATOR] + e.metadataJson);
            forged != e && VerifyIntegrity(hash, forged)
  {
    var forged := e.(description := first, metadataJson := second + [SEPARATOR] + e.metadataJson);
    assert |forged.description| < |e.description|;
    var f, g := Fields(e), Fields(forged);
    var last := e.previousHash;
    assert f[9..] == [first + [SEPARATOR] + second, e.metadataJson, last];
    assert g[9..] == [first, second + [SEPARATOR] + e.metadataJson, last];
    JoinThree(first + [SEPARATOR] + second, e.metadataJson, last);
    JoinThree(first, second + [SEPARATOR] + e.metadataJson, last);
    SameInside(f[..9], f[9..], g[9..], []);
    assert f[..9] + f[9..] + [] == f && f[..9] + g[9..] + [] == g;
  }

  lemma JoinThree(x: string, y: string, z: string)
    ensures Join([x, y, z]) == x + [SEPARATOR] + y + [SEPARATOR] + z
  {
    assert [x, y, z][1..] == [y, z] && [y, z][1..] == [z];
    assert Join([y, z]) == y + [SEPARATOR] + z;
  }
}
