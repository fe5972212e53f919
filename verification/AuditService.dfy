/** Recording audit events: an append-only repository and the service that chains them. */
module AuditService {
  import opened Wrappers
  import opened AuditEncoding
  import opened AuditChain

  const SUBSYSTEMS: set<string> := {
    "certificates", "machines", "pairing", "heartbeat", "policies", "routing", "notifications", "audit", "system"}

  /** What a caller of `record` says about an event. */
  datatype Entry = Entry(
    subsystem: string, eventType: string, description: string, machineId: string, actor: string,
    severity: AuditSeverity, outcome: AuditOutcome, correlationId: string, metadataJson: string)

  /** The id and time that creating an event draws from the outside. */
  datatype Stamp = Stamp(auditId: string, timestamp: string)

  function Create(hash: Hash, entry: Entry, stamp: Stamp, previousHash: string): (e: AuditEvent)
    ensures VerifyIntegrity(hash, e)
    ensures Fields(e) == [stamp.auditId, entry.correlationId, stamp.timestamp, entry.machineId, entry.subsystem,
                          entry.actor, entry.eventType, SeverityText(entry.severity), OutcomeText(entry.outcome),
                          entry.description, entry.metadataJson, previousHash]
    ensures e.severity == entry.severity && e.outcome == entry.outcome && e.previousHash == previousHash
  {
    var blank := AuditEvent(stamp.auditId, entry.correlationId, stamp.timestamp, entry.machineId, entry.subsystem,
                            entry.actor, entry.eventType, entry.severity, entry.outcome, entry.description,
                            entry.metadataJson, "", previousHash);
    blank.(currentHash := ComputeHash(hash, blank))
  }

  /** The list of complaints about an event. */
  method Validate(e: AuditEvent) returns (errors: seq<string>)
    ensures errors == [] <==> e.auditId != "" && e.subsystem in SUBSYSTEMS && e.eventType != ""
    ensures errors == Errors(e)
  {
    errors := [];
    if e.auditId == "" {
      errors := errors + ["audit_id is required"];
    }
    if e.subsystem == "" {
      errors := errors + ["subsystem is required"];
    } else if e.subsystem !in SUBSYSTEMS {
      errors := errors + ["Unknown subsystem: '" + e.subsystem + "'"];
    }
    if e.eventType == "" {
      errors := errors + ["event_type is required"];
    }
  }

  function Errors(e: AuditEvent): seq<string> {
    (if e.auditId == "" then ["audit_id is required"] else [])
    + (if e.subsystem == "" then ["subsystem is required"]
       else if e.subsystem !in SUBSYSTEMS then ["Unknown subsystem: '" + e.subsystem + "'"] else [])
    + (if e.eventType == "" then ["event_type is required"] else [])
  }

  const LIMIT := 1000000

  function LastHash(log: seq<AuditEvent>): string {
    if log == [] then "" else log[|log| - 1].currentHash
  }

  /** The log after one call of `record`: a rejected event leaves it as it is. */
  function Recorded(hash: Hash, log: seq<AuditEvent>, entry: Entry, stamp: Stamp): seq<AuditEvent> {
    var e := Create(hash, entry, stamp, LastHash(log));
    if Errors(e) == [] then log + [e] else log
  }

  function RecordAll(hash: Hash, log: seq<AuditEvent>, calls: seq<(Entry, Stamp)>): seq<AuditEvent>
    decreases calls
  {
    if calls == [] then log
    else RecordAll(hash, Recorded(hash, log, calls[0].0, calls[0].1), calls[1..])
  }

  /** Whatever is recorded, the log stays in order, starts without a previous hash and keeps
      everything it had. */
  lemma {:induction false} EveryLogIsAccepted(hash: Hash, log: seq<AuditEvent>, calls: seq<(Entry, Stamp)>)
    requires ChainOk(hash, log) && Genesis(log)
    ensures ChainOk(hash, RecordAll(hash, log, calls)) && Genesis(RecordAll(hash, log, calls))
    ensures log <= RecordAll(hash, log, calls)
    decreases calls
  {
    if calls != [] {
      var e := Create(hash, calls[0].0, calls[0].1, LastHash(log));
      ConcatenationOk(hash, log, [e]);
      EveryLogIsAccepted(hash, Recorded(hash, log, calls[0].0, calls[0].1), calls[1..]);
    }
  }

  class AuditRepository {
    /** The event table in the order of creation. */
    var events: seq<AuditEvent>

    constructor ()
      ensures events == []
    {
      events := [];
    }

    method Append(e: AuditEvent)
      modifies this
      ensures events == old(events) + [e]
    {
      events := events + [e];
    }

    /** One page of the selected events, in order, and how many are selected. */
    method GetOrdered(limit: nat, offset: nat, subsystem: string, eventType: string) returns (page: seq<AuditEvent>, total: nat)
      ensures var selected := Selected(events, subsystem, eventType);
        && total == |selected|
        && |page| == (if offset >= total then 0 else if total - offset < limit then total - offset else limit)
        && forall i | 0 <= i < |page| :: page[i] == selected[offset + i]
    {
      var selected := Selected(events, subsystem, eventType);
      total := |selected|;
      var start := if offset < total then offset else total;
      var size := if total - start < limit then total - start else limit;
      page := selected[start..start + size];
    }
  }

  /** The events that pass both filters; an empty filter passes everything. */
  function Selected(events: seq<AuditEvent>, subsystem: string, eventType: string): seq<AuditEvent> {
    if events == [] then []
    else
      var last := events[|events| - 1];
      Selected(events[..|events| - 1], subsystem, eventType)
      + if (subsystem == "" || last.subsystem == subsystem) && (eventType == "" || last.eventType == eventType) then [last]
        else []
  }

  lemma {:induction false} NoFilterSelectsAll(events: seq<AuditEvent>)
    ensures Selected(events, "", "") == events
  {
    if events != [] {
      NoFilterSelectsAll(events[..|events| - 1]);
    }
  }

  /** An event is selected iff it is in the log and passes the filters that are set. */
  lemma {:induction false} SelectedAreMatching(events: seq<AuditEvent>, subsystem: string, eventType: string)
    ensures forall e :: e in Selected(events, subsystem, eventType) <==>
              e in events && (subsystem == "" || e.subsystem == subsystem) && (eventType == "" || e.eventType == eventType)
  {
    if events != [] {
      var front := events[..|events| - 1];
      SelectedAreMatching(front, subsystem, eventType);
      assert events == front + [events[|events| - 1]];
    }
  }

  lemma NothingToCheck(hash: Hash)
    ensures ChainOk(hash, []) && GoodHashes(hash, []) == 0
  {}

  class AuditService {
    const repository: AuditRepository
    var eventsWritten: nat
    var validationFailures: nat
    var hashFailures: nat

    constructor (repository: AuditRepository)
      ensures this.repository == repository && eventsWritten == validationFailures == hashFailures == 0
    {
      this.repository := repository;
      eventsWritten, validationFailures, hashFailures := 0, 0, 0;
    }

    method Record(hash: Hash, entry: Entry, stamp: Stamp) returns (r: Result<AuditEvent, string>)
      modifies this`eventsWritten, this`validationFailures, repository
      ensures repository.events == Recorded(hash, old(repository.events), entry, stamp)
      ensures r.Ok? <==> stamp.auditId != "" && entry.subsystem in SUBSYSTEMS && entry.eventType != ""
      ensures r.Ok? ==>
        && VerifyIntegrity(hash, r.value)
        && r.value.previousHash == (if old(repository.events) == [] then "" else old(repository.events)[|old(repository.events)| - 1].currentHash)
      ensures r.Ok? <==> |repository.events| == |old(repository.events)| + 1
      ensures r.Ok? ==> repository.events == old(repository.events) + [r.value]
      ensures r.Err? ==> repository.events == old(repository.events)
      ensures eventsWritten == old(eventsWritten) + (if r.Ok? then 1 else 0)
      ensures validationFailures == old(validationFailures) + (if r.Ok? then 0 else 1)
    {
      var n := |repository.events|;
      var previousHash := if n == 0 then "" else repository.events[n - 1].currentHash;
      var e := Create(hash, entry, stamp, previousHash);
      var errors := Validate(e);
      if errors != [] {
        validationFailures := validationFailures + 1;
        return Err(errors[0]);
      }
      repository.Append(e);
      eventsWritten := eventsWritten + 1;
      return Ok(e);
    }

    /** The service's verification reads at most a million events; the others count as failed. */
    method VerifyLog(hash: Hash) returns (verified: bool, total: nat, good: nat, failed: nat, firstFailure: string)
      modifies this`hashFailures
      ensures total == |repository.events|
      ensures verified <==> ChainOk(hash, Seen(repository.events))
      ensures good == GoodHashes(hash, Seen(repository.events)) && good + failed == total
      ensures verified ==> firstFailure == ""
      ensures !verified ==> exists i: nat :: Blamed(hash, Seen(repository.events), i)
                              && firstFailure == repository.events[i].auditId
      ensures hashFailures == old(hashFailures) + (if verified then 0 else 1)
    {
      NothingToCheck(hash);
      hide ChainOk, VerifyIntegrity, GoodHashes, Linked;
      var page;
      page, total := repository.GetOrdered(LIMIT, 0, "", "");
      NoFilterSelectsAll(repository.events);
      if total == 0 {
        return true, 0, 0, 0, "";
      }
      assert page == Seen(repository.events);
      verified, firstFailure := VerifyChain(hash, page);
      if !verified {
        hashFailures := hashFailures + 1;
      }
      good := CountGood(hash, page);
      failed := total - good;
    }

    method CountGood(hash: Hash, page: seq<AuditEvent>) returns (good: nat)
      ensures good == GoodHashes(hash, page) <= |page|
    {
      good := 0;
      for i := 0 to |page|
        invariant good == GoodHashes(hash, page[..i]) && good <= i
      {
        assert page[..i + 1][..i] == page[..i];
        if VerifyIntegrity(hash, page[i]) {
          good := good + 1;
        }
      }
      assert page[..|page|] == page;
    }
  }

  /** What one verification reads. */
  function Seen(log: seq<AuditEvent>): seq<AuditEvent> { if |log| < LIMIT then log else log[..LIMIT] }

  /** A log of n events as `record` writes it. */
  function SampleLog(hash: Hash, n: nat): (log: seq<AuditEvent>)
    ensures |log| == n
  {
    if n == 0 then []
    else
      var before := SampleLog(hash, n - 1);
      before + [Create(hash, Entry("audit", "sample", "", "", "", Info, Success, "", "{}"), Stamp("id", ""), LastHash(before))]
  }

  lemma {:induction false} SampleLogIsAccepted(hash: Hash, n: nat)
    ensures ChainOk(hash, SampleLog(hash, n))
  {
    if n > 0 {
      SampleLogIsAccepted(hash, n - 1);
      var log := SampleLog(hash, n);
      assert log == log[..n - 1] + [log[n - 1]];
      ConcatenationOk(hash, log[..n - 1], [log[n - 1]]);
    }
  }

  /** A good log of n events followed by one whose hash is wrong. */
  function SpoiledLog(hash: Hash, n: nat): (log: seq<AuditEvent>)
    ensures |log| == n + 1
  {
    var event := Create(hash, Entry("audit", "sample", "", "", "", Info, Success, "", "{}"), Stamp("id", ""), "");
    SampleLog(hash, n) + [event.(currentHash := event.currentHash + "x")]
  }

  /** Behind the limit a bad event is still reported as verified. */
  lemma SpoiledLogIsVerified(hash: Hash, n: nat)
    requires n >= LIMIT
    ensures ChainOk(hash, Seen(SpoiledLog(hash, n))) && !ChainOk(hash, SpoiledLog(hash, n))
  {
    var good, log := SampleLog(hash, n), SpoiledLog(hash, n);
    SampleLogIsAccepted(hash, n);
    SpoiledEventIsBad(hash, n);
    hide ChainOk, SpoiledLog;
    assert good == good[..LIMIT] + good[LIMIT..];
    ConcatenationOk(hash, good[..LIMIT], good[LIMIT..]);
  }

  lemma SpoiledEventIsBad(hash: Hash, n: nat)
    ensures !ChainOk(hash, SpoiledLog(hash, n))
    ensures n >= LIMIT ==> Seen(SpoiledLog(hash, n)) == SampleLog(hash, n)[..LIMIT]
  {
    var log := SpoiledLog(hash, n);
    var last := log[n];
    assert Fields(last) == Fields(last.(currentHash := ComputeHash(hash, last)));
    assert |last.currentHash| == |ComputeHash(hash, last)| + 1;
    assert !VerifyIntegrity(hash, log[n]);
  }

  /** The verdict speaks for the whole log, for all logs of one length, exactly within the limit. */
  lemma VerdictIsExactIff(hash: Hash, n: nat)
    ensures (forall log: seq<AuditEvent> | |log| == n :: ChainOk(hash, Seen(log)) <==> ChainOk(hash, log)) <==> n <= LIMIT
  {
    if n <= LIMIT {
      assert forall log: seq<AuditEvent> | |log| == n :: Seen(log) == log;
    } else {
      SpoiledLogIsVerified(hash, n - 1);
    }
  }

  function GoodHashes(hash: Hash, events: seq<AuditEvent>): nat {
    if events == [] then 0
    else GoodHashes(hash, events[..|events| - 1]) + if VerifyIntegrity(hash, events[|events| - 1]) then 1 else 0
  }
}
