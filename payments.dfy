/** `PaymentsService`: the payment ledger (a role-gated append), the
    per-client payment read and the monthly renewal report. */
module Payments {
  import opened Common
  import opened Seqs
  import opened Text
  import opened Calendar
  import opened Clients
  import CreatePaymentDto

  /** A row of the payment table; `createdAt` is the time it was written. */
  datatype Payment = Payment(
    amount: int,
    month: string,
    isRenewal: bool,
    clientId: ClientId,
    managerId: UserId,
    createdAt: int)

  /** The assignee the renewal report joins in. */
  datatype Assignee = Assignee(id: UserId, fullName: string)

  /** One line of the renewal report. */
  datatype RenewalItem = RenewalItem(
    clientId: ClientId,
    clientName: Option<string>,
    amount: int,
    renewedAt: string,
    specialist: Option<Assignee>)

  datatype Renewals = Renewals(month: string, totalRenewals: nat, clients: seq<RenewalItem>)

  const CreateForbidden: Error := Forbidden("Недостаточно прав для создания платежа")
  const PaymentClientNotFound: Error := NotFound("Клиент не найден")
  const ReadForbidden: Error := Forbidden("Недостаточно прав для просмотра платежей")
  const RenewalsForbidden: Error := Forbidden("Недостаточно прав для просмотра продлений")

  function PaymentTime(p: Payment): int
  {
    p.createdAt
  }

  /** The roles that may record a payment. */
  predicate MayCreate(role: Role)
  {
    role == Admin || role == SalesManager
  }

  /** The rows the per-client read shows to `role`: the client's payments,
      and for a sales manager only those the caller recorded. */
  predicate Visible(p: Payment, clientId: ClientId, userId: UserId, role: Role)
  {
    p.clientId == clientId && (role == SalesManager ==> p.managerId == userId)
  }

  /** The rows of the renewal report: renewals of `month`, and for a
      specialist only those of clients assigned to the caller. */
  predicate IsRenewalFor(p: Payment, month: string, clients: seq<Client>, userId: UserId, role: Role)
  {
    && p.isRenewal
    && p.month == month
    && (role == Specialist ==> p.clientId < |clients| && clients[p.clientId].assignedToId == Some(userId))
  }

  /** The payments the renewal report lists, newest first. */
  function RenewalPayments(payments: seq<Payment>, clients: seq<Client>, month: string, userId: UserId, role: Role)
    : (rows: seq<Payment>)
    ensures forall p :: multiset(rows)[p] == if IsRenewalFor(p, month, clients, userId, role) then multiset(payments)[p] else 0
    ensures forall p :: p in rows ==> p in payments && p.isRenewal && p.month == month
    ensures role == Specialist ==>
      forall p :: p in rows ==> p.clientId < |clients| && clients[p.clientId].assignedToId == Some(userId)
    ensures SortedDesc(rows, PaymentTime)
  {
    SortDesc(Filter(payments, (p: Payment) => IsRenewalFor(p, month, clients, userId, role)), PaymentTime)
  }

  /** `createdAt.toISOString().split('T')[0]`: the `YYYY-MM-DD` date of the
      time value. */
  function RenewedAt(t: int): (s: string)
    ensures s == IsoDate(t)
  {
    IsoDatePart(t);
    Before(IsoString(t), 'T')
  }

  /** The report line of payment `p` of client `c`: the client's full name,
      or its company name when the full name is empty or missing; the date
      the payment was recorded; the assignee, or none. */
  function RenewalOf(p: Payment, c: Client, users: map<UserId, User>): (item: RenewalItem)
    requires c.assignedToId.Some? ==> c.assignedToId.value in users
    ensures item.clientId == c.id && item.amount == p.amount
    ensures Truthy(c.fullName) ==> item.clientName == c.fullName
    ensures !Truthy(c.fullName) ==> item.clientName == c.companyName
    ensures item.renewedAt == IsoDate(p.createdAt)
    ensures item.specialist.Some? <==> c.assignedToId.Some?
    ensures item.specialist.Some? ==>
      item.specialist.value == Assignee(c.assignedToId.value, users[c.assignedToId.value].fullName)
  {
    var specialist := if c.assignedToId.Some? then
      Some(Assignee(c.assignedToId.value, users[c.assignedToId.value].fullName)) else None;
    RenewalItem(c.id, OrElse(c.fullName, c.companyName), p.amount, RenewedAt(p.createdAt), specialist)
  }

  /** Every payment belongs to a client of `clients`. */
  predicate BelongToClients(payments: seq<Payment>, clients: seq<Client>)
  {
    forall k :: 0 <= k < |payments| ==> payments[k].clientId < |clients|
  }

  /** Every assignee of `clients` is a user of `users`. */
  predicate AssigneesKnown(clients: seq<Client>, users: map<UserId, User>)
  {
    forall i :: 0 <= i < |clients| && clients[i].assignedToId.Some? ==> clients[i].assignedToId.value in users
  }

  lemma RowsBelong(payments: seq<Payment>, clients: seq<Client>, rows: seq<Payment>)
    requires BelongToClients(payments, clients)
    requires forall p :: p in rows ==> p in payments
    ensures BelongToClients(rows, clients)
  {
    forall i | 0 <= i < |rows| ensures rows[i].clientId < |clients| {
      assert rows[i] in rows;
      var k :| 0 <= k < |payments| && payments[k] == rows[i];
    }
  }

  /** The renewal report of `month` for the caller: one line per row of
      `RenewalPayments`, in its order, and a total equal to the number of
      lines. */
  function Report(payments: seq<Payment>, clients: seq<Client>, users: map<UserId, User>,
                  month: string, userId: UserId, role: Role): (r: Renewals)
    requires BelongToClients(payments, clients) && AssigneesKnown(clients, users)
    ensures var rows := RenewalPayments(payments, clients, month, userId, role);
      && r.month == month
      && r.totalRenewals == |r.clients| == |rows|
      && forall i :: 0 <= i < |rows| ==>
           rows[i].clientId < |clients| && r.clients[i] == RenewalOf(rows[i], clients[rows[i].clientId], users)
  {
    var rows := RenewalPayments(payments, clients, month, userId, role);
    RowsBelong(payments, clients, rows);
    var items := seq(|rows|, i requires 0 <= i < |rows| => RenewalOf(rows[i], clients[rows[i].clientId], users));
    Renewals(month, |rows|, items)
  }

  class PaymentsService {
    const store: ClientsService
    var payments: seq<Payment>

    /** The client store is consistent and every payment belongs to a
        stored client. */
    ghost predicate Valid()
      reads this, store
    {
      && store.Valid()
      && BelongToClients(payments, store.clients)
    }

    constructor (store: ClientsService)
      requires store.Valid()
      ensures Valid() && this.store == store && payments == []
    {
      this.store := store;
      payments := [];
    }

    /** `create`: Forbidden for a role other than ADMIN or SALES_MANAGER,
        before the client is looked up; NotFound for an absent client;
        neither appends anything. Otherwise exactly one payment with the
        given amount, month, renewal flag, client and manager. */
    method Create(clientId: ClientId, dto: CreatePaymentDto.CreatePayment, managerId: UserId, role: Role, now: int)
      returns (r: Result<Payment>)
      requires Valid()
      modifies this
      ensures Valid()
      ensures !MayCreate(role) ==> r == Err(CreateForbidden)
      ensures MayCreate(role) && clientId >= |store.clients| ==> r == Err(PaymentClientNotFound)
      ensures r.Ok? <==> MayCreate(role) && clientId < |store.clients|
      ensures r.Err? ==> payments == old(payments)
      ensures r.Ok? ==>
        && r.value == Payment(dto.amount, dto.month, dto.isRenewal, clientId, managerId, now)
        && payments == old(payments) + [r.value]
    {
      if !MayCreate(role) {
        return Err(CreateForbidden);
      }
      if clientId >= |store.clients| {
        return Err(PaymentClientNotFound);
      }
      var p := Payment(dto.amount, dto.month, dto.isRenewal, clientId, managerId, now);
      payments := payments + [p];
      r := Ok(p);
    }

    /** `findByClient`: Forbidden for SPECIALIST and DESIGNER; otherwise the
        rows `Visible` admits, each as often as stored, newest first. An
        absent client has no payments; it is not an error. */
    function FindByClient(clientId: ClientId, userId: UserId, role: Role): (r: Result<seq<Payment>>)
      reads this
      ensures r.Err? <==> role == Specialist || role == Designer
      ensures r.Err? ==> r.error == ReadForbidden
      ensures r.Ok? ==>
        forall p :: multiset(r.value)[p] == if Visible(p, clientId, userId, role) then multiset(payments)[p] else 0
      ensures r.Ok? && role == SalesManager ==> forall p :: p in r.value ==> p.managerId == userId
      ensures r.Ok? ==> SortedDesc(r.value, PaymentTime)
    {
      if role == Specialist || role == Designer then Err(ReadForbidden)
      else Ok(SortDesc(Filter(payments, (p: Payment) => Visible(p, clientId, userId, role)), PaymentTime))
    }

    /** `getRenewals`: Forbidden for a role other than ADMIN or SPECIALIST;
        otherwise the report of `RenewalPayments`, line by line, with the
        month echoed and the total equal to the number of lines. */
    function GetRenewals(month: string, userId: UserId, role: Role): (r: Result<Renewals>)
      reads this, store
      requires Valid()
      ensures r.Err? <==> role != Admin && role != Specialist
      ensures r.Err? ==> r.error == RenewalsForbidden
      ensures r.Ok? ==>
        var rows := RenewalPayments(payments, store.clients, month, userId, role);
        && r.value.month == month
        && r.value.totalRenewals == |r.value.clients| == |rows|
        && forall i :: 0 <= i < |rows| ==>
             rows[i].clientId < |store.clients|
             && r.value.clients[i] == RenewalOf(rows[i], store.clients[rows[i].clientId], store.users)
    {
      if role != Admin && role != Specialist then Err(RenewalsForbidden)
      else
        Ok(Report(payments, store.clients, store.users, month, userId, role))
    }
  }
}
