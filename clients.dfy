/** `ClientsService`: the client table, the assignment history and the
    assignment workflow (create, list, read, update, archive, assign,
    acknowledge). Creating, archiving, assigning, acknowledging and
    changing the status each append one row to the audit trail; an update
    without a status writes none. Every refused call changes nothing. */
module Clients {
  import opened Common
  import opened Seqs
  import opened Text
  import opened Audit
  import CreateClientDto
  import UpdateClientDto

  /** A row of the client table. The designer fields are written by parts
      of the system outside this service; the dashboard reads them. */
  datatype Client = Client(
    id: ClientId,
    fullName: Option<string>,
    companyName: Option<string>,
    phone: string,
    email: Option<string>,
    source: Option<string>,
    notes: Option<string>,
    services: seq<string>,
    status: ClientStatus,
    archived: bool,
    createdById: UserId,
    createdAt: int,
    assignedToId: Option<UserId>,
    assignedAt: Option<int>,
    assignmentSeen: bool,
    designerId: Option<UserId>,
    designerAssignedAt: Option<int>,
    designerAssignmentSeen: bool)

  /** A row of the assignment history: who was assigned to which client, by
      whom, and when. */
  datatype AssignmentRecord = AssignmentRecord(
    clientId: ClientId,
    specialistId: UserId,
    assignedById: UserId,
    assignedAt: int)

  /** A client as the single read returns it: with its assignment history
      joined in. */
  datatype ClientDetail = ClientDetail(client: Client, history: seq<AssignmentRecord>)

  const ClientNotFound: Error := NotFound("Клиент не найден")
  const NameRequired: Error := BadRequest("Необходимо указать ФИО или название компании")
  const NoAccess: Error := Forbidden("Нет доступа к данному клиенту")
  const StatusForbidden: Error := Forbidden("Только проект-менеджер может менять статус клиента")
  const NotSpecialist: Error := BadRequest("Указанный пользователь не является специалистом")
  const NotAssignee: Error := Forbidden("Вы не назначены на данного клиента")
  const AlreadyAcknowledged: Error := BadRequest("Назначение уже подтверждено")

  /** What Nest answers when Prisma refuses an update: `null` for the phone
      or the status, whose columns are not nullable. */
  const NullColumn: Error := ServerError("Internal server error")

  /** The status column's default, which a new client starts in. */
  const InitialStatus: ClientStatus := Other("NEW")

  function CreatedAt(c: Client): int
  {
    c.createdAt
  }

  function AssignedAt(h: AssignmentRecord): int
  {
    h.assignedAt
  }

  predicate IsSpecialist(users: map<UserId, User>, id: UserId)
  {
    id in users && users[id].role == Specialist
  }

  /** The search of the client list: a case-insensitive substring of the
      full name, the company name or the email, or a substring of the
      phone. A missing name or email matches nothing. */
  predicate SearchHit(c: Client, search: string)
  {
    || (c.fullName.Some? && ContainsInsensitive(c.fullName.value, search))
    || (c.companyName.Some? && ContainsInsensitive(c.companyName.value, search))
    || Contains(c.phone, search)
    || (c.email.Some? && ContainsInsensitive(c.email.value, search))
  }

  /** The `where` object of the client list. `archived: false` is always
      part of it; `assignedToId` is `Some(None)` for `assignedToId: null`. */
  datatype Where = Where(assignedToId: Option<Option<UserId>>, search: Option<string>, status: Option<ClientStatus>)

  predicate Satisfies(c: Client, w: Where)
  {
    && !c.archived
    && (w.assignedToId.Some? ==> c.assignedToId == w.assignedToId.value)
    && (w.search.Some? ==> SearchHit(c, w.search.value))
    && (w.status.Some? ==> c.status == w.status.value)
  }

  /** Which clients the list shows, rule by rule: never an archived one;
      with `unassigned` only unassigned ones, whatever the role; otherwise,
      for a specialist, only the caller's own; with a search, only those it
      hits; with a status, only those in it. */
  predicate Listed(c: Client, role: Role, userId: UserId, search: Option<string>, status: Option<ClientStatus>,
                   unassigned: bool)
  {
    && !c.archived
    && (unassigned ==> c.assignedToId.None?)
    && (!unassigned && role == Specialist ==> c.assignedToId == Some(userId))
    && (Truthy(search) ==> SearchHit(c, search.value))
    && (status.Some? ==> c.status == status.value)
  }

  /** The last history row about client `id`. */
  function LatestAssignment(history: seq<AssignmentRecord>, id: ClientId): (r: Option<AssignmentRecord>)
    ensures r.Some? ==> r.value in history && r.value.clientId == id
  {
    if history == [] then None
    else if history[|history| - 1].clientId == id then Some(history[|history| - 1])
    else LatestAssignment(history[..|history| - 1], id)
  }

  lemma LatestAfterAppend(history: seq<AssignmentRecord>, h: AssignmentRecord, id: ClientId)
    ensures LatestAssignment(history + [h], id) == if h.clientId == id then Some(h) else LatestAssignment(history, id)
  {
    assert (history + [h])[..|history|] == history;
  }

  /** A client that no history row mentions has no latest assignment. */
  lemma {:induction false} LatestOfUnmentioned(history: seq<AssignmentRecord>, id: ClientId)
    requires forall k :: 0 <= k < |history| ==> history[k].clientId != id
    ensures LatestAssignment(history, id) == None
  {
    if history != [] {
      LatestOfUnmentioned(history[..|history| - 1], id);
    }
  }

  /** A client's current assignment is the one its latest history row
      records, and an unassigned client has no history row. */
  predicate AgreesWithHistory(c: Client, latest: Option<AssignmentRecord>)
  {
    match latest
    case None => c.assignedToId.None? && c.assignedAt.None?
    case Some(h) => c.assignedToId == Some(h.specialistId) && c.assignedAt == Some(h.assignedAt)
  }

  /** The client `create` stores as row `id`: the given names, contacts and
      notes, created by `userId`, unassigned, unacknowledged, not archived. */
  function NewClient(id: ClientId, dto: CreateClientDto.CreateClient, userId: UserId, now: int): (c: Client)
    ensures c.id == id && c.createdById == userId && c.createdAt == now
    ensures c.assignedToId.None? && c.assignedAt.None? && !c.assignmentSeen && !c.archived
    ensures c.fullName == dto.fullName && c.companyName == dto.companyName && c.phone == dto.phone
  {
    Client(id, dto.fullName, dto.companyName, dto.phone, dto.email, dto.source, dto.notes, [], InitialStatus,
           false, userId, now, None, None, false, None, None, false)
  }

  /** Prisma refuses the update: it sets a column that is not nullable to
      `null`. */
  predicate ClearsRequired(dto: UpdateClientDto.UpdateClient)
  {
    dto.phone.Clear? || dto.status.Clear?
  }

  /** The client after an update: each nullable text field the body
      carries is set or cleared as `Apply` says, a given phone and status
      replace the stored ones, and every other field, in particular the
      assignment and the archive flag, keeps its value. */
  function Patched(c: Client, dto: UpdateClientDto.UpdateClient): (r: Client)
    ensures r.(fullName := c.fullName, companyName := c.companyName, phone := c.phone, email := c.email,
               source := c.source, notes := c.notes, status := c.status) == c
    ensures r.fullName == Apply(dto.fullName, c.fullName) && r.companyName == Apply(dto.companyName, c.companyName)
    ensures r.email == Apply(dto.email, c.email) && r.source == Apply(dto.source, c.source)
    ensures r.notes == Apply(dto.notes, c.notes)
    ensures dto.phone.Set? ==> r.phone == dto.phone.value
    ensures !dto.phone.Set? ==> r.phone == c.phone
    ensures r.status == if dto.status.Set? then dto.status.value else c.status
    ensures dto == UpdateClientDto.UpdateClient(Keep, Keep, Keep, Keep, Keep, Keep, Keep) ==> r == c
  {
    c.(fullName := Apply(dto.fullName, c.fullName),
       companyName := Apply(dto.companyName, c.companyName),
       phone := if dto.phone.Set? then dto.phone.value else c.phone,
       email := Apply(dto.email, c.email),
       source := Apply(dto.source, c.source),
       notes := Apply(dto.notes, c.notes),
       status := if dto.status.Set? then dto.status.value else c.status)
  }

  /** The client after `assign`: assigned to `specialistId` at `now`, in
      status ASSIGNED, unacknowledged, whatever it was before; nothing else
      changes. */
  function AssignedTo(c: Client, specialistId: UserId, now: int): (r: Client)
    ensures r.assignedToId == Some(specialistId) && r.assignedAt == Some(now)
    ensures r.status == Assigned && !r.assignmentSeen
    ensures r.(assignedToId := c.assignedToId, assignedAt := c.assignedAt, status := c.status,
               assignmentSeen := c.assignmentSeen) == c
  {
    c.(assignedToId := Some(specialistId), assignedAt := Some(now), status := Assigned, assignmentSeen := false)
  }

  /** Why `acknowledge` refuses, checked in the source's order: the caller
      must be the assignee, and the assignment must not be acknowledged. */
  function AcknowledgeError(c: Client, userId: UserId): (e: Option<Error>)
    ensures e.None? <==> c.assignedToId == Some(userId) && !c.assignmentSeen
    ensures c.assignedToId != Some(userId) ==> e == Some(NotAssignee)
    ensures c.assignedToId == Some(userId) && c.assignmentSeen ==> e == Some(AlreadyAcknowledged)
  {
    if c.assignedToId != Some(userId) then Some(NotAssignee)
    else if c.assignmentSeen then Some(AlreadyAcknowledged)
    else None
  }

  /** The client after `acknowledge`: acknowledged and in status IN_WORK;
      nothing else changes. */
  function Acknowledged(c: Client): (r: Client)
    ensures r.assignmentSeen && r.status == InWork
    ensures r.(assignmentSeen := c.assignmentSeen, status := c.status) == c
  {
    c.(assignmentSeen := true, status := InWork)
  }

  /** An acknowledgement succeeds at most once per assignment: once it has
      succeeded, every further one is refused, with BadRequest for the
      assignee and Forbidden for anybody else. */
  lemma AcknowledgeOnlyOnce(c: Client, userId: UserId, again: UserId)
    requires AcknowledgeError(c, userId).None?
    ensures AcknowledgeError(Acknowledged(c), again)
         == Some(if again == userId then AlreadyAcknowledged else NotAssignee)
  {
  }

  /** Every assignment resets the acknowledgement: after it, exactly the new
      assignee can acknowledge, whether or not the previous assignment was
      acknowledged and whoever held it. */
  lemma AssignmentResetsAcknowledgement(c: Client, specialistId: UserId, now: int, userId: UserId)
    ensures AcknowledgeError(AssignedTo(c, specialistId, now), userId).None? <==> userId == specialistId
  {
  }

  function StatusChange(before: ClientStatus, after: ClientStatus): string
  {
    "Статус изменён: " + StatusName(before) + " → " + StatusName(after)
  }

  /** The audit action of an assignment: a reassignment when the client
      already had an assignee. */
  function AssignAction(previous: Option<UserId>): (a: string)
    ensures a == "SPECIALIST_REASSIGNED" <==> previous.Some?
    ensures a == "SPECIALIST_ASSIGNED" <==> previous.None?
  {
    if previous.Some? then "SPECIALIST_REASSIGNED" else "SPECIALIST_ASSIGNED"
  }

  class ClientsService {
    const users: map<UserId, User>
    const audit: AuditService
    var clients: seq<Client>
    var history: seq<AssignmentRecord>

    /** Row `i` of the table is client `i`; only an assigned client can be
        acknowledged; every assignee is a user; each client's
        assignment is the one its latest history row records; every history
        row is about a stored client. */
    ghost predicate Valid()
      reads this
    {
      && (forall i :: 0 <= i < |clients| ==> clients[i].id == i)
      && (forall i :: 0 <= i < |clients| ==> clients[i].assignmentSeen ==> clients[i].assignedToId.Some?)
      && (forall i :: 0 <= i < |clients| && clients[i].assignedToId.Some? ==>
            clients[i].assignedToId.value in users)
      && (forall i :: 0 <= i < |clients| ==> AgreesWithHistory(clients[i], LatestAssignment(history, i)))
      && (forall k :: 0 <= k < |history| ==> history[k].clientId < |clients|)
    }

    constructor (users: map<UserId, User>, audit: AuditService)
      ensures Valid()
      ensures this.users == users && this.audit == audit
      ensures clients == [] && history == []
    {
      this.users := users;
      this.audit := audit;
      clients := [];
      history := [];
    }

    /** `create`: refused with BadRequest when neither name is given, and
        then nothing is written; otherwise one new client created by
        `userId` and exactly one CLIENT_CREATED audit row for it. */
    method Create(dto: CreateClientDto.CreateClient, userId: UserId, now: int) returns (r: Result<Client>)
      requires Valid()
      modifies this, audit
      ensures Valid() && history == old(history)
      ensures r.Ok? <==> Truthy(dto.fullName) || Truthy(dto.companyName)
      ensures r.Err? ==> r.error == NameRequired && clients == old(clients) && audit.entries == old(audit.entries)
      ensures r.Ok? ==>
        && r.value == NewClient(|old(clients)|, dto, userId, now)
        && clients == old(clients) + [r.value]
        && audit.entries == old(audit.entries) + [AuditEntry("CLIENT_CREATED", userId, Some(r.value.id),
             Some("Клиент создан: " + OrElse(dto.fullName, dto.companyName).value), now)]
    {
      if !Truthy(dto.fullName) && !Truthy(dto.companyName) {
        return Err(NameRequired);
      }
      var c := NewClient(|clients|, dto, userId, now);
      LatestOfUnmentioned(history, c.id);
      clients := clients + [c];
      var name := OrElse(dto.fullName, dto.companyName);
      var _ := audit.Log("CLIENT_CREATED", userId, Some(c.id), Some("Клиент создан: " + name.value), now);
      r := Ok(c);
    }

    /** `findAll`: the clients `Listed` admits, and only they, newest first. */
    method FindAll(role: Role, userId: UserId, search: Option<string>, status: Option<ClientStatus>, unassigned: bool)
      returns (rows: seq<Client>)
      ensures forall c :: c in rows <==> c in clients && Listed(c, role, userId, search, status, unassigned)
      ensures forall c :: multiset(rows)[c]
                == if Listed(c, role, userId, search, status, unassigned) then multiset(clients)[c] else 0
      ensures SortedDesc(rows, CreatedAt)
    {
      var where := Where(None, None, None);
      if role == Specialist {
        where := where.(assignedToId := Some(Some(userId)));
      }
      if Truthy(search) {
        where := where.(search := search);
      }
      if status.Some? {
        where := where.(status := status);
      }
      if unassigned {
        where := where.(assignedToId := Some(None));
      }
      assert forall c :: Satisfies(c, where) <==> Listed(c, role, userId, search, status, unassigned);
      var matching := Filter(clients, (c: Client) => Satisfies(c, where));
      rows := SortDesc(matching, CreatedAt);
    }

    /** `findById`: NotFound for an absent id, before any role check;
        Forbidden for a specialist who is not the client's assignee;
        otherwise the client with its assignment history, newest first. */
    function FindById(id: ClientId, role: Role, userId: UserId): (r: Result<ClientDetail>)
      reads this
      ensures id >= |clients| ==> r == Err(ClientNotFound)
      ensures id < |clients| ==> (r.Err? <==> role == Specialist && clients[id].assignedToId != Some(userId))
      ensures id < |clients| && r.Err? ==> r.error == NoAccess
      ensures r.Ok? ==> id < |clients| && r.value.client == clients[id]
      ensures r.Ok? ==> forall h :: multiset(r.value.history)[h] == if h.clientId == id then multiset(history)[h] else 0
      ensures r.Ok? ==> SortedDesc(r.value.history, AssignedAt)
    {
      if id >= |clients| then Err(ClientNotFound)
      else if role == Specialist && clients[id].assignedToId != Some(userId) then Err(NoAccess)
      else Ok(ClientDetail(clients[id], SortDesc(Filter(history, (h: AssignmentRecord) => h.clientId == id), AssignedAt)))
    }

    /** `update`: NotFound for an absent id; Forbidden for a specialist who
        is not the assignee; Forbidden when a status is given by anyone but
        a project manager, even if the rest of the body is valid (a `null`
        status is falsy and passes this check); then Prisma refuses a `null`
        phone or status. A refused update changes nothing. Otherwise the
        client takes the body's fields, and a STATUS_CHANGED row recording
        the old and the new status is written exactly when a status was
        given. */
    method Update(id: ClientId, dto: UpdateClientDto.UpdateClient, userId: UserId, role: Role, now: int)
      returns (r: Result<Client>)
      requires Valid()
      modifies this, audit
      ensures Valid() && history == old(history)
      ensures id >= |old(clients)| ==> r == Err(ClientNotFound)
      ensures id < |old(clients)| && role == Specialist && old(clients)[id].assignedToId != Some(userId) ==>
        r == Err(NoAccess)
      ensures id < |old(clients)| && (role == Specialist ==> old(clients)[id].assignedToId == Some(userId)) ==>
        && (r.Err? <==> (dto.status.Set? && role != ProjectManager) || ClearsRequired(dto))
        && (dto.status.Set? && role != ProjectManager ==> r == Err(StatusForbidden))
        && (!(dto.status.Set? && role != ProjectManager) && ClearsRequired(dto) ==> r == Err(NullColumn))
      ensures r.Err? ==> clients == old(clients) && audit.entries == old(audit.entries)
      ensures r.Ok? ==>
        && id < |old(clients)|
        && r.value == Patched(old(clients)[id], dto)
        && clients == old(clients)[id := r.value]
      ensures r.Ok? && dto.status.Set? ==>
        audit.entries == old(audit.entries)
          + [AuditEntry("STATUS_CHANGED", userId, Some(id), Some(StatusChange(old(clients)[id].status, dto.status.value)), now)]
      ensures r.Ok? && !dto.status.Set? ==> audit.entries == old(audit.entries)
    {
      if id >= |clients| {
        return Err(ClientNotFound);
      }
      var client := clients[id];
      if role == Specialist && client.assignedToId != Some(userId) {
        return Err(NoAccess);
      }
      if dto.status.Set? && role != ProjectManager {
        return Err(StatusForbidden);
      }
      if ClearsRequired(dto) {
        return Err(NullColumn);
      }
      var updated := Patched(client, dto);
      clients := clients[id := updated];
      if dto.status.Set? {
        var _ := audit.Log("STATUS_CHANGED", userId, Some(id), Some(StatusChange(client.status, dto.status.value)), now);
      }
      r := Ok(updated);
    }

    /** `archive`: NotFound for an absent id; otherwise one CLIENT_ARCHIVED
        row, and the client's archive flag is set and nothing else about it
        changes, whatever its status. */
    method Archive(id: ClientId, userId: UserId, now: int) returns (r: Result<Client>)
      requires Valid()
      modifies this, audit
      ensures Valid() && history == old(history)
      ensures r.Err? <==> id >= |old(clients)|
      ensures r.Err? ==> r.error == ClientNotFound && clients == old(clients) && audit.entries == old(audit.entries)
      ensures r.Ok? ==>
        && r.value == old(clients)[id].(archived := true)
        && clients == old(clients)[id := r.value]
        && audit.entries == old(audit.entries)
             + [AuditEntry("CLIENT_ARCHIVED", userId, Some(id), Some("Клиент архивирован"), now)]
    {
      if id >= |clients| {
        return Err(ClientNotFound);
      }
      var _ := audit.Log("CLIENT_ARCHIVED", userId, Some(id), Some("Клиент архивирован"), now);
      var updated := clients[id].(archived := true);
      clients := clients[id := updated];
      r := Ok(updated);
    }

    /** `assign`: NotFound for an absent client; BadRequest when the target
        user is absent or not a specialist; a refused assignment changes
        nothing. Otherwise the client is assigned to the specialist, in
        status ASSIGNED and unacknowledged whatever its previous state,
        exactly one history row is appended, and the audit row says
        SPECIALIST_REASSIGNED exactly when the client had an assignee. */
    method Assign(clientId: ClientId, specialistId: UserId, assignedById: UserId, now: int) returns (r: Result<Client>)
      requires Valid()
      modifies this, audit
      ensures Valid()
      ensures clientId >= |old(clients)| ==> r == Err(ClientNotFound)
      ensures clientId < |old(clients)| ==>
        (r.Err? <==> !IsSpecialist(users, specialistId)) && (r.Err? ==> r.error == NotSpecialist)
      ensures r.Err? ==>
        clients == old(clients) && history == old(history) && audit.entries == old(audit.entries)
      ensures r.Ok? ==>
        && clientId < |old(clients)| && specialistId in users
        && r.value == AssignedTo(old(clients)[clientId], specialistId, now)
        && clients == old(clients)[clientId := r.value]
        && history == old(history) + [AssignmentRecord(clientId, specialistId, assignedById, now)]
        && audit.entries == old(audit.entries)
             + [AuditEntry(AssignAction(old(clients)[clientId].assignedToId), assignedById, Some(clientId),
                           Some("Специалист назначен: " + users[specialistId].fullName), now)]
    {
      if clientId >= |clients| {
        return Err(ClientNotFound);
      }
      var client := clients[clientId];
      var specialist := FindUser(users, specialistId);
      if specialist.None? || specialist.value.role != Specialist {
        return Err(NotSpecialist);
      }
      var oldAssignee := client.assignedToId;
      var updated := AssignedTo(client, specialistId, now);
      var record := AssignmentRecord(clientId, specialistId, assignedById, now);
      forall i | 0 <= i < |clients| {
        LatestAfterAppend(history, record, i);
      }
      clients := clients[clientId := updated];
      history := history + [record];
      var _ := audit.Log(AssignAction(oldAssignee), assignedById, Some(clientId),
                         Some("Специалист назначен: " + specialist.value.fullName), now);
      r := Ok(updated);
    }

    /** `acknowledge`: NotFound for an absent client; Forbidden unless the
        caller is the assignee; BadRequest when the assignment is already
        acknowledged. Otherwise the client is acknowledged and IN_WORK, and
        one ASSIGNMENT_ACKNOWLEDGED row is written. */
    method Acknowledge(clientId: ClientId, userId: UserId, now: int) returns (r: Result<Client>)
      requires Valid()
      modifies this, audit
      ensures Valid() && history == old(history)
      ensures clientId >= |old(clients)| ==> r == Err(ClientNotFound)
      ensures clientId < |old(clients)| ==>
        var e := AcknowledgeError(old(clients)[clientId], userId);
        (r.Err? <==> e.Some?) && (r.Err? ==> r.error == e.value)
      ensures r.Err? ==> clients == old(clients) && audit.entries == old(audit.entries)
      ensures r.Ok? ==>
        && clientId < |old(clients)| && old(clients)[clientId].assignedToId == Some(userId)
        && r.value == Acknowledged(old(clients)[clientId])
        && clients == old(clients)[clientId := r.value]
        && audit.entries == old(audit.entries)
             + [AuditEntry("ASSIGNMENT_ACKNOWLEDGED", userId, Some(clientId), Some("Специалист принял клиента в работу"), now)]
    {
      if clientId >= |clients| {
        return Err(ClientNotFound);
      }
      var client := clients[clientId];
      if client.assignedToId != Some(userId) {
        return Err(NotAssignee);
      }
      if client.assignmentSeen {
        return Err(AlreadyAcknowledged);
      }
      var updated := Acknowledged(client);
      clients := clients[clientId := updated];
      var _ := audit.Log("ASSIGNMENT_ACKNOWLEDGED", userId, Some(clientId), Some("Специалист принял клиента в работу"), now);
      r := Ok(updated);
    }
  }
}
