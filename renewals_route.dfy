/** The front end's `GET /api/renewals` handler: the renewal report read
    straight from the database tables, with its own role gate, month check
    and specialist scoping. The caller is the authenticated user; the
    tables are the rows the queries see. */
module RenewalsRoute {
  import opened Common
  import opened Seqs
  import opened Text
  import opened Calendar
  import opened Patterns

  /** Row ids of the front-end tables (UUID text). */
  type RowId = string

  /** A row of `payments`; `createdAt` is the `created_at` instant. */
  datatype PaymentRow = PaymentRow(clientId: RowId, amount: int, month: string, isRenewal: bool, createdAt: int)

  /** A row of `clients`, with the columns the report reads. */
  datatype ClientRow = ClientRow(id: RowId, fullName: Option<string>, companyName: Option<string>,
                                 assignedToId: Option<UserId>)

  /** The joined `profiles` row of an assignee. */
  datatype Profile = Profile(id: UserId, fullName: string)

  /** One line of the report; the client fields are absent when the payment
      has no matching client row. */
  datatype Line = Line(
    clientId: Option<RowId>,
    clientName: Option<string>,
    amount: int,
    renewedAt: string,
    specialist: Option<Profile>)

  datatype Body = Message(message: string) | Report(month: string, totalRenewals: nat, clients: seq<Line>)

  datatype Response = Response(status: nat, body: Body)

  /** The user `requireAuth` returns. */
  datatype Caller = Caller(id: UserId, role: Role)

  const RoleDenied: Response := Response(403, Message("Недостаточно прав для просмотра продлений"))
  const BadMonth: Response := Response(400, Message("Некорректный формат месяца (YYYY-MM)"))

  /** The payments query as it is built: renewals of `month`, newest first,
      and, once restricted, only payments of the listed clients. */
  datatype Query = Query(month: string, clientIds: Option<seq<RowId>>)

  predicate Admits(q: Query, p: PaymentRow)
  {
    && p.isRenewal
    && p.month == q.month
    && (q.clientIds.Some? ==> p.clientId in q.clientIds.value)
  }

  function CreatedAt(p: PaymentRow): int
  {
    p.createdAt
  }

  /** The rows the query returns: every payment it admits, each as often as
      stored, and no other, ordered by `created_at` descending. */
  function Run(q: Query, payments: seq<PaymentRow>): (rows: seq<PaymentRow>)
    ensures forall p :: multiset(rows)[p] == if Admits(q, p) then multiset(payments)[p] else 0
    ensures forall p :: p in rows <==> p in payments && Admits(q, p)
    ensures SortedDesc(rows, CreatedAt)
  {
    var admitted := Filter(payments, (p: PaymentRow) => Admits(q, p));
    var rows := SortDesc(admitted, CreatedAt);
    assert forall p :: p in rows <==> p in multiset(rows);
    rows
  }

  /** The ids `select('id').eq('assigned_to_id', userId)` returns. */
  function AssignedIds(clients: seq<ClientRow>, userId: UserId): (ids: seq<RowId>)
    ensures forall id :: id in ids <==> exists c :: c in clients && c.id == id && c.assignedToId == Some(userId)
  {
    var mine := Filter(clients, (c: ClientRow) => c.assignedToId == Some(userId));
    var ids := Map(mine, (c: ClientRow) => c.id);
    assert forall id :: id in ids ==> exists c :: c in mine && c.id == id;
    assert forall c :: c in mine ==> c.id in ids by {
      forall c | c in mine ensures c.id in ids {
        var i :| 0 <= i < |mine| && mine[i] == c;
        assert ids[i] == c.id;
      }
    }
    ids
  }

  /** The client row the payment's foreign key joins to, if any. */
  function ClientOf(clients: seq<ClientRow>, id: RowId): (r: Option<ClientRow>)
    ensures r.Some? ==> r.value in clients && r.value.id == id
    ensures r.None? ==> forall c :: c in clients ==> c.id != id
  {
    if clients == [] then None
    else if clients[0].id == id then Some(clients[0])
    else ClientOf(clients[1..], id)
  }

  /** The projection of one payment: the client's id; its full name, or its
      company name when the full name is empty or missing; the text of
      `created_at` before its `T`, which is the payment's UTC date; the
      assignee's profile, or null. */
  function LineOf(p: PaymentRow, clients: seq<ClientRow>, profiles: map<UserId, string>): (line: Line)
    ensures line.amount == p.amount
    ensures line.renewedAt == IsoDate(p.createdAt)
    ensures var c := ClientOf(clients, p.clientId);
      && (c.None? ==> line.clientId.None? && line.clientName.None? && line.specialist.None?)
      && (c.Some? ==>
            && line.clientId == Some(p.clientId)
            && (Truthy(c.value.fullName) ==> line.clientName == c.value.fullName)
            && (!Truthy(c.value.fullName) ==> line.clientName == c.value.companyName)
            && (line.specialist.Some? <==> c.value.assignedToId.Some? && c.value.assignedToId.value in profiles)
            && (line.specialist.Some? ==>
                  line.specialist.value == Profile(c.value.assignedToId.value, profiles[c.value.assignedToId.value])))
  {
    IsoDatePart(p.createdAt);
    var renewedAt := Before(IsoString(p.createdAt), 'T');
    match ClientOf(clients, p.clientId)
    case None => Line(None, None, p.amount, renewedAt, None)
    case Some(c) =>
      var specialist :=
        if c.assignedToId.Some? && c.assignedToId.value in profiles
        then Some(Profile(c.assignedToId.value, profiles[c.assignedToId.value]))
        else None;
      Line(Some(c.id), OrElse(c.fullName, c.companyName), p.amount, renewedAt, specialist)
  }

  /** `payments.map(...)`: one line per row, in order. */
  function Lines(rows: seq<PaymentRow>, clients: seq<ClientRow>, profiles: map<UserId, string>): (lines: seq<Line>)
    ensures |lines| == |rows|
    ensures forall i :: 0 <= i < |rows| ==> lines[i] == LineOf(rows[i], clients, profiles)
  {
    seq(|rows|, i requires 0 <= i < |rows| => LineOf(rows[i], clients, profiles))
  }

  /** The restriction a caller's query gets: the ids of the clients
      assigned to a specialist, none for anyone else. */
  function Scope(caller: Caller, clients: seq<ClientRow>): Option<seq<RowId>>
  {
    if caller.role == Specialist then Some(AssignedIds(clients, caller.id)) else None
  }

  /** Every line of the report of `rows` projects one of the rows. */
  lemma LinesOfRows(rows: seq<PaymentRow>, clients: seq<ClientRow>, profiles: map<UserId, string>, line: Line)
    returns (p: PaymentRow)
    requires line in Lines(rows, clients, profiles)
    ensures p in rows && line == LineOf(p, clients, profiles)
  {
    var lines := Lines(rows, clients, profiles);
    var i :| 0 <= i < |lines| && lines[i] == line;
    p := rows[i];
  }

  /** The handler's answer, written without its early return: 403 for a role
      other than ADMIN or SPECIALIST whatever the month; then 400 for a
      missing month or one the `YYYY-MM` pattern refuses (the empty text
      among them); otherwise the report of the rows of the caller's query,
      one line per row, in order, with a total equal to the number of
      lines. */
  function Expected(caller: Caller, month: Option<string>, payments: seq<PaymentRow>,
                    clients: seq<ClientRow>, profiles: map<UserId, string>): (r: Response)
    ensures caller.role != Admin && caller.role != Specialist ==> r == RoleDenied
    ensures (caller.role == Admin || caller.role == Specialist) && (month.None? || !IsMonthText(month.value))
            ==> r == BadMonth
    ensures r.status == 200 <==>
            (caller.role == Admin || caller.role == Specialist) && month.Some? && IsMonthText(month.value)
    ensures r.status == 200 ==>
      var rows := Run(Query(month.value, Scope(caller, clients)), payments);
      && r.body.Report?
      && r.body.month == month.value
      && r.body.totalRenewals == |r.body.clients| == |rows|
      && r.body.clients == Lines(rows, clients, profiles)
  {
    if caller.role != Admin && caller.role != Specialist then RoleDenied
    else if month.None? || !IsMonthText(month.value) then BadMonth
    else
      var rows := Run(Query(month.value, Scope(caller, clients)), payments);
      Response(200, Report(month.value, |rows|, Lines(rows, clients, profiles)))
  }

  /** Each line of a report comes from a stored renewal payment of the
      requested month; for a specialist, of a client assigned to the
      caller. */
  lemma ReportLines(caller: Caller, month: string, payments: seq<PaymentRow>,
                    clients: seq<ClientRow>, profiles: map<UserId, string>, line: Line)
    requires Expected(caller, Some(month), payments, clients, profiles).status == 200
    requires line in Expected(caller, Some(month), payments, clients, profiles).body.clients
    ensures exists p :: && p in payments && p.isRenewal && p.month == month
                        && line == LineOf(p, clients, profiles)
                        && (caller.role == Specialist ==>
                              exists c :: c in clients && c.id == p.clientId && c.assignedToId == Some(caller.id))
  {
    var rows := Run(Query(month, Scope(caller, clients)), payments);
    var p := LinesOfRows(rows, clients, profiles, line);
    assert p in payments && Admits(Query(month, Scope(caller, clients)), p);
  }

  /** A specialist with no assigned client has no renewals: the restricted
      query admits nothing, so the handler's early return answers exactly
      what the full query would. */
  lemma NoAssignedClients(caller: Caller, month: string, payments: seq<PaymentRow>,
                          clients: seq<ClientRow>, profiles: map<UserId, string>)
    requires caller.role == Specialist && IsMonthText(month)
    requires AssignedIds(clients, caller.id) == []
    ensures Expected(caller, Some(month), payments, clients, profiles) == Response(200, Report(month, 0, []))
  {
    var rows := Run(Query(month, Some([])), payments);
    assert forall p :: p !in rows;
    assert rows == [];
  }

  /** `GET`: the gates in the source's order, the query reassigned once for a
      specialist, and the early return when the specialist has no clients.
      The answer is `Expected`. */
  method Get(caller: Caller, month: Option<string>, payments: seq<PaymentRow>,
             clients: seq<ClientRow>, profiles: map<UserId, string>) returns (r: Response)
    ensures r == Expected(caller, month, payments, clients, profiles)
  {
    if caller.role != Admin && caller.role != Specialist {
      return RoleDenied;
    }
    if month.None? || !IsMonthText(month.value) {
      return BadMonth;
    }
    var m := month.value;
    var query := Query(m, None);
    if caller.role == Specialist {
      var clientIds := AssignedIds(clients, caller.id);
      if |clientIds| == 0 {
        NoAssignedClients(caller, m, payments, clients, profiles);
        return Response(200, Report(m, 0, []));
      }
      query := query.(clientIds := Some(clientIds));
    }
    var rows := Run(query, payments);
    r := Response(200, Report(m, |rows|, Lines(rows, clients, profiles)));
  }
}
