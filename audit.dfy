/** `AuditService`: the append-only audit trail every state-changing
    operation writes to, and its per-client read. */
module Audit {
  import opened Common
  import opened Seqs

  /** A row of the audit table. The client and the details are optional;
      `createdAt` is the time the row was written. */
  datatype AuditEntry = AuditEntry(
    action: string,
    userId: UserId,
    clientId: Option<ClientId>,
    details: Option<string>,
    createdAt: int)

  function EntryTime(e: AuditEntry): int
  {
    e.createdAt
  }

  /** The audit table. Rows are only ever added at the end. */
  class AuditService {
    var entries: seq<AuditEntry>

    constructor ()
      ensures entries == []
    {
      entries := [];
    }

    /** `log`: writes one row carrying exactly the given action, user,
        client and details, stamped `now`; no existing row is modified or
        removed. */
    method Log(action: string, userId: UserId, clientId: Option<ClientId>, details: Option<string>, now: int)
      returns (e: AuditEntry)
      modifies this
      ensures e == AuditEntry(action, userId, clientId, details, now)
      ensures entries == old(entries) + [e]
      ensures |entries| == |old(entries)| + 1 && entries[..|old(entries)|] == old(entries)
    {
      e := AuditEntry(action, userId, clientId, details, now);
      entries := entries + [e];
    }
  }

  predicate About(e: AuditEntry, clientId: ClientId)
  {
    e.clientId == Some(clientId)
  }

  /** `getByClient`: every row about `clientId`, each as often as the table
      holds it, and no other row, newest first. */
  function ByClient(entries: seq<AuditEntry>, clientId: ClientId): (r: seq<AuditEntry>)
    ensures forall e :: multiset(r)[e] == if About(e, clientId) then multiset(entries)[e] else 0
    ensures forall e :: e in r ==> e.clientId == Some(clientId)
    ensures SortedDesc(r, EntryTime)
  {
    SortDesc(Filter(entries, e => About(e, clientId)), EntryTime)
  }

  /** Appending a row adds it to the read of its own client, and to no
      other client's read. */
  lemma ByClientAppend(entries: seq<AuditEntry>, e: AuditEntry, clientId: ClientId)
    ensures multiset(ByClient(entries + [e], clientId))
         == multiset(ByClient(entries, clientId)) + (if About(e, clientId) then multiset{e} else multiset{})
  {
    var before, after := ByClient(entries, clientId), ByClient(entries + [e], clientId);
    var added := if About(e, clientId) then multiset{e} else multiset{};
    assert multiset(entries + [e]) == multiset(entries) + multiset{e};
    forall x ensures multiset(after)[x] == (multiset(before) + added)[x] {
      if About(x, clientId) {
        assert multiset(after)[x] == multiset(entries + [e])[x];
        assert multiset(before)[x] == multiset(entries)[x];
      } else {
        assert multiset(after)[x] == 0 && multiset(before)[x] == 0;
      }
    }
    assert multiset(after) == multiset(before) + added;
  }
}
